/** What a bot may push. A ref update that claims the bot role names exactly one grant, live, of
    the same repository and bot, from someone who is a maintainer at that moment. */
module BotPush {
  import opened Rules
  import opened Chain
  import opened ForgeContracts
  import opened Membership

  // ---- what the rules say of one grant and one ref update --------------------------------------------

  /** A stored grant: it ends within 90 days of its writing and is for one ref or one branch prefix. */
  predicate WellGranted(v: View) {
    && IntOf(v, until) <= IntOf(v, createdAt) + GrantTtlMs
    && (scope in v <==> prefix !in v)
    && (prefix in v ==> v[prefix].Text? && "refs/heads/" <= v[prefix].s)
  }

  lemma GrantEnds(v: View)
    requires Passed(PushGrantRules, v)
    ensures IntOf(v, until) <= IntOf(v, createdAt) + GrantTtlMs
  {
    assert PushGrantRules[0] == And(LessThan(Prop(createdAt), Prop(until)),
                                    AtMost(Prop(until), Add(Prop(createdAt), Lit(Int(GrantTtlMs)))));
  }

  lemma GrantScope(v: View)
    requires Passed(PushGrantRules, v)
    ensures scope in v <==> prefix !in v
    ensures prefix in v ==> v[prefix].Text? && "refs/heads/" <= v[prefix].s
  {
    assert PushGrantRules[1] == Or(And(Present(scope), Absent(prefix)), And(Absent(scope), Present(prefix)));
    assert PushGrantRules[2] == Or(Absent(prefix), StartsWith(Prop(prefix), Lit(Text("refs/heads/"))));
  }

  lemma StandingIsWellGranted(v: View)
    requires Standing(PushGrantSchema, v)
    ensures WellGranted(v)
  {
    GrantEnds(v);
    GrantScope(v);
  }

  lemma BotNamesGrant(v: View)
    requires Passed(RefUpdateRules, v) && rClaim in v && v[rClaim].Int?
    ensures v[rClaim].n == 4 || v[rClaim].n == 1
    ensures v[rClaim].n == 4 ==> (pg in v || pp in v) && (pg in v ==> enc in v)
  {
    assert RefUpdateRules[4] == BotGrant;
  }

  lemma SealedHidesName(v: View)
    requires Passed(RefUpdateRules, v) && enc in v
    ensures refName !in v
  {
    assert RefUpdateRules[0] == Or(And(Absent(enc), IsPublic), Absent(refName));
  }

  lemma {:induction false} PrefixRead(env: Env)
    requires Holds(GrantPrefix, env) && pp in env.me
    ensures var g := Lookup(env.docs, Get(env.me, pp));
            && g.Some? && prefix in g.value.view && g.value.view[prefix].Text?
            && refName in env.me && env.me[refName].Text? && g.value.view[prefix].s <= env.me[refName].s
  {
  }

  // ---- the grant a reference proves ----------------------------------------------------------------------

  /** Grant `g` of the log covers the update: same repository, for this bot, written by `grantor`,
      and not yet ended when the update is created. */
  predicate Covers(g: Doc, me: View) {
    && g.live && g.typ == PushGrant
    && Get(g.view, repoId) == Get(me, repoId)
    && Get(g.view, botId) == Get(me, ownerId)
    && Get(g.view, ownerId) == Get(me, grantor)
    && IntOf(g.view, until) >= IntOf(me, createdAt)
  }

  lemma GrantFound(docs: seq<Doc>, extra: seq<(Field, Cond)>, f: Field, me: View) returns (p: nat)
    requires IdsArePositions(docs) && Refers(docs, [GrantLeaf(extra)], Get(me, f), me)
    ensures Get(me, f) == Some(Ident(p)) && p < |docs| && Covers(docs[p], me)
    ensures forall k | 0 <= k < |extra| :: CondHolds(extra[k].1, Get(docs[p].view, extra[k].0), me)
  {
    var base := [(repoId, Agrees(repoId)), (botId, Agrees(ownerId)), (ownerId, Agrees(grantor)), (until, NotBefore(createdAt))];
    var conds := base + extra;
    assert [GrantLeaf(extra)][0] == Leaf(PushGrant, [(docId, Own)], conds);
    p := FoundById(docs, PushGrant, conds, Get(me, f), me);
    assert conds[0] == base[0] && conds[1] == base[1] && conds[2] == base[2] && conds[3] == base[3];
    forall k | 0 <= k < |extra| ensures CondHolds(extra[k].1, Get(docs[p].view, extra[k].0), me) {
      assert conds[4 + k] == extra[k];
    }
  }

  lemma ExactGrantFound(docs: seq<Doc>, me: View) returns (p: nat)
    requires IdsArePositions(docs) && Refers(docs, [GrantLeaf([(scope, Agrees(refNameHash))])], Get(me, pg), me)
    ensures Get(me, pg) == Some(Ident(p)) && p < |docs| && Covers(docs[p], me)
    ensures Get(docs[p].view, scope) == Get(me, refNameHash)
  {
    var extra := [(scope, Agrees(refNameHash))];
    p := GrantFound(docs, extra, pg, me);
    assert extra[0] == (scope, Agrees(refNameHash));
  }

  // ---- the accepted ref update ---------------------------------------------------------------------------

  /** A schema that asks what the ref update's does of the claim, the hash and the grant's prefix. */
  predicate AsksForGrant(sch: TypeSchema) {
    && sch.rules == RefUpdateRules && rClaim in sch.required && refNameHash in sch.required
    && |sch.chainRules| > 0 && sch.chainRules[0] == GrantPrefix
  }

  lemma AcceptedFacts(C: Contract, s: State, signer: nat, t: DocType, data: View, sch: TypeSchema)
    requires C(t) == sch && AsksForGrant(sch) && AcceptsCreate(C, s, signer, t, data)
    ensures var me := CreatedView(s, signer, data);
            && Passed(RefUpdateRules, me)
            && rClaim in me && me[rClaim].Int? && refNameHash in me
            && Holds(GrantPrefix, Env(s.docs + [Doc(t, me, true)], me, None))
  {
    var me := CreatedView(s, signer, data);
    CreateLeaves(C, s, signer, t, data, sch);
    RequiredInt(sch, me, rClaim);
    FirstRule(sch.chainRules, GrantPrefix, Env(s.docs + [Doc(t, me, true)], me, None));
  }

  lemma RefUpdateAsks()
    ensures Forge(RefUpdate) == RefUpdateSchema && AsksForGrant(RefUpdateSchema)
  {
  }

  lemma RefUpdateFacts(s: State, signer: nat, data: View)
    requires AcceptsCreate(Forge, s, signer, RefUpdate, data)
    ensures var me := CreatedView(s, signer, data);
            && Passed(RefUpdateRules, me)
            && rClaim in me && me[rClaim].Int? && refNameHash in me
            && Holds(GrantPrefix, Env(s.docs + [Doc(RefUpdate, me, true)], me, None))
  {
    RefUpdateAsks();
    AcceptedFacts(Forge, s, signer, RefUpdate, data, RefUpdateSchema);
  }

  lemma GrantRefs(s: State, signer: nat, data: View)
    requires AcceptsCreate(Forge, s, signer, RefUpdate, data)
    ensures var me := CreatedView(s, signer, data);
            && (pg in me ==> Refers(s.docs, [GrantLeaf([(scope, Agrees(refNameHash))])], Get(me, pg), me))
            && (pp in me ==> Refers(s.docs, [GrantLeaf([])], Get(me, pp), me))
            && (grantor in me ==> Refers(s.docs, [Member(Maintainer, [])], Get(me, grantor), me))
  {
    CreateRefers(Forge, s, signer, RefUpdate, data, 1);
    CreateRefers(Forge, s, signer, RefUpdate, data, 2);
    CreateRefers(Forge, s, signer, RefUpdate, data, 3);
    assert RefUpdateSchema.refs[1] == (pg, [GrantLeaf([(scope, Agrees(refNameHash))])]);
    assert RefUpdateSchema.refs[2] == (pp, [GrantLeaf([])]);
    assert RefUpdateSchema.refs[3] == (grantor, [Member(Maintainer, [])]);
  }

  /** What is true of a bot's accepted update `me` under the grant at position `g`. */
  ghost predicate GrantedPush(docs: seq<Doc>, me: View, g: nat) {
    && g < |docs| && Covers(docs[g], me)
    && IntOf(me, createdAt) <= IntOf(docs[g].view, createdAt) + GrantTtlMs
    && Maintains(docs, Get(me, repoId), Get(docs[g].view, ownerId))
    && (// an exact grant: a sealed ref whose hash is the granted scope
        || (Get(me, pg) == Some(Ident(g)) && pp !in me && enc in me && refName !in me
            && scope in docs[g].view && Get(docs[g].view, scope) == Get(me, refNameHash))
        // a prefix grant: a plaintext branch name under the granted prefix
        || (Get(me, pp) == Some(Ident(g)) && pg !in me && enc !in me && refName in me && me[refName].Text?
            && prefix in docs[g].view && docs[g].view[prefix].Text?
            && "refs/heads/" <= docs[g].view[prefix].s <= me[refName].s))
  }

  lemma GrantorMaintains(docs: seq<Doc>, me: View)
    requires grantor in me && Refers(docs, [Member(Maintainer, [])], Get(me, grantor), me)
    ensures Maintains(docs, Get(me, repoId), Get(me, grantor))
  {
    var leaves := [Member(Maintainer, [])];
    var k :| 0 <= k < |leaves| && Finds(docs, leaves[k], Get(me, grantor), me);
    MaintainerFound(docs, Get(me, grantor), me);
  }

  lemma GrantStands(s: State, p: nat)
    requires Sound(Forge, s) && p < |s.docs| && s.docs[p].typ == PushGrant
    ensures WellGranted(s.docs[p].view) && ownerId in s.docs[p].view
  {
    assert StoredAt(Forge(PushGrant), s.docs[p].view, p, s.now);
    StandingIsWellGranted(s.docs[p].view);
  }

  lemma PrefixOf(s: State, p: nat, me: View)
    requires p < |s.docs| && s.docs[p].live && Get(me, pp) == Some(Ident(p))
    requires Holds(GrantPrefix, Env(s.docs + [Doc(RefUpdate, me, true)], me, None))
    ensures prefix in s.docs[p].view && s.docs[p].view[prefix].Text?
    ensures refName in me && me[refName].Text? && s.docs[p].view[prefix].s <= me[refName].s
  {
    PrefixRead(Env(s.docs + [Doc(RefUpdate, me, true)], me, None));
  }

  lemma ExactCase(s: State, me: View) returns (g: nat)
    requires Sound(Forge, s) && Passed(RefUpdateRules, me) && pg in me && enc in me && refNameHash in me
    requires Refers(s.docs, [GrantLeaf([(scope, Agrees(refNameHash))])], Get(me, pg), me)
    requires grantor in me ==> Refers(s.docs, [Member(Maintainer, [])], Get(me, grantor), me)
    requires Holds(GrantPrefix, Env(s.docs + [Doc(RefUpdate, me, true)], me, None))
    ensures GrantedPush(s.docs, me, g)
  {
    SoundIds(Forge, s);
    g := ExactGrantFound(s.docs, me);
    GrantStands(s, g);
    GrantorMaintains(s.docs, me);
    SealedHidesName(me);
    if pp in me { PrefixRead(Env(s.docs + [Doc(RefUpdate, me, true)], me, None)); }
  }

  lemma PrefixCase(s: State, me: View) returns (g: nat)
    requires Sound(Forge, s) && Passed(RefUpdateRules, me) && pp in me && pg !in me
    requires Refers(s.docs, [GrantLeaf([])], Get(me, pp), me)
    requires grantor in me ==> Refers(s.docs, [Member(Maintainer, [])], Get(me, grantor), me)
    requires Holds(GrantPrefix, Env(s.docs + [Doc(RefUpdate, me, true)], me, None))
    ensures GrantedPush(s.docs, me, g)
  {
    SoundIds(Forge, s);
    g := GrantFound(s.docs, [], pp, me);
    GrantStands(s, g);
    GrantorMaintains(s.docs, me);
    PrefixOf(s, g, me);
    if enc in me { SealedHidesName(me); }
  }

  lemma BotCases(s: State, me: View) returns (g: nat)
    requires Sound(Forge, s) && Passed(RefUpdateRules, me) && rClaim in me && me[rClaim] == Int(4) && refNameHash in me
    requires pg in me ==> Refers(s.docs, [GrantLeaf([(scope, Agrees(refNameHash))])], Get(me, pg), me)
    requires pp in me ==> Refers(s.docs, [GrantLeaf([])], Get(me, pp), me)
    requires grantor in me ==> Refers(s.docs, [Member(Maintainer, [])], Get(me, grantor), me)
    requires Holds(GrantPrefix, Env(s.docs + [Doc(RefUpdate, me, true)], me, None))
    ensures GrantedPush(s.docs, me, g)
  {
    BotNamesGrant(me);
    if pg in me {
      g := ExactCase(s, me);
    } else {
      g := PrefixCase(s, me);
    }
  }

  /** Every ref update accepted with the bot's claim (r = 4), in any reachable state, stands under
      exactly one grant: of the same repository and bot, written by someone who is a maintainer
      now, at most 90 days ago, and of the kind of ref it was for. */
  lemma BotPushesAreGranted(ops: seq<Op>, signer: nat, data: View) returns (g: nat)
    requires AcceptsCreate(Forge, Run(Forge, ops), signer, RefUpdate, data)
    requires Get(CreatedView(Run(Forge, ops), signer, data), rClaim) == Some(Int(4))
    ensures GrantedPush(Run(Forge, ops).docs, CreatedView(Run(Forge, ops), signer, data), g)
    ensures forall h :: GrantedPush(Run(Forge, ops).docs, CreatedView(Run(Forge, ops), signer, data), h) ==> h == g
  {
    var s := Run(Forge, ops);
    RunSound(Forge, ops);
    RefUpdateFacts(s, signer, data);
    GrantRefs(s, signer, data);
    g := BotCases(s, CreatedView(s, signer, data));
  }

  /** No ref update is accepted on a triage or reader row: its writer maintains the repository,
      or holds a writer row of role 1 or 4. */
  lemma {:induction false} PushersMayPush(ops: seq<Op>, signer: nat, data: View)
    requires AcceptsCreate(Forge, Run(Forge, ops), signer, RefUpdate, data)
    ensures var s := Run(Forge, ops);
            var repo, who := Get(CreatedView(s, signer, data), repoId), Some(Ident(signer));
            Maintains(s.docs, repo, who) || HasRole(s.docs, repo, who, 1) || HasRole(s.docs, repo, who, 4)
  {
    var s := Run(Forge, ops);
    RunSound(Forge, ops);
    RefUpdateFacts(s, signer, data);
    CreateOwner(Forge, s, signer, RefUpdate, data);
    PusherCases(s, Some(Ident(signer)), CreatedView(s, signer, data));
  }

  lemma PusherCases(s: State, who: Option<Value>, me: View)
    requires Sound(Forge, s) && Passed(RefUpdateRules, me) && rClaim in me && me[rClaim].Int?
    requires Refers(s.docs, RefUpdateSchema.ownerRef, who, me)
    ensures var repo := Get(me, repoId);
            Maintains(s.docs, repo, who) || HasRole(s.docs, repo, who, 1) || HasRole(s.docs, repo, who, 4)
  {
    BotNamesGrant(me);
    var leaves := [Member(Maintainer, []), Member(Writer, [(role, Agrees(rClaim))])];
    assert RefUpdateSchema.ownerRef == leaves;
    var k :| 0 <= k < |leaves| && Finds(s.docs, leaves[k], who, me);
    if k == 0 {
      MaintainerFound(s.docs, who, me);
    } else {
      WriterRoles(s);
      ClaimFound(s.docs, rClaim, who, me);
      assert HasRole(s.docs, Get(me, repoId), who, me[rClaim].n);
    }
  }
}
