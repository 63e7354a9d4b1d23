/** Reviews that count. An approve or a request for changes was written by someone who was then a
    maintainer or a role-1 writer of the repository and is not the author of the pull request, and
    it stays for good. */
module Verdicts {
  import opened Rules
  import opened Chain
  import opened ForgeContracts
  import opened Membership

  predicate Counts(d: Doc) {
    d.typ == Review && Get(d.view, verdict) in {Some(Int(1)), Some(Int(2))}
  }

  // ---- a counted review stays ---------------------------------------------------------------------------

  predicate Kept(a: Doc, b: Doc) {
    Counts(a) && a.live ==> b == a
  }

  lemma KeepVerdicts(v: View, docs: seq<Doc>)
    requires Holds(ReviewSchema.mayDelete, Env(docs, v, None))
    ensures Get(v, verdict) !in {Some(Int(1)), Some(Int(2))}
  {
    assert ReviewSchema.mayDelete == NotIn(Prop(verdict), [Int(1), Int(2)]);
  }

  /** Reviews are not mutable, and a counted one is not deleted. */
  predicate KeepsReviews(C: Contract) {
    !C(Review).mutable && C(Review).mayDelete == ReviewSchema.mayDelete
  }

  lemma DeleteCase(C: Contract, t: DocType, v: View, docs: seq<Doc>)
    requires KeepsReviews(C) && DeleteStands(C(t), v, docs)
    ensures Kept(Doc(t, v, true), Doc(t, v, false))
  {
    if t == Review { KeepVerdicts(v, docs); }
  }

  lemma KeptInductive(C: Contract)
    requires KeepsReviews(C)
    ensures Inductive(C, Kept)
  {
    forall t, v, docs | DeleteStands(C(t), v, docs) ensures Kept(Doc(t, v, true), Doc(t, v, false)) {
      DeleteCase(C, t, v, docs);
    }
  }

  lemma ForgeKeepsReviews()
    ensures KeepsReviews(Forge)
  {
  }

  /** The set of counted reviews only grows: one in the log at any moment of a run is there,
      unchanged, at its end. */
  lemma {:induction false} CountedReviewsStay(ops: seq<Op>, k: nat, i: nat)
    requires k <= |ops| && i < |Run(Forge, ops[..k]).docs|
    requires Counts(Run(Forge, ops[..k]).docs[i]) && Run(Forge, ops[..k]).docs[i].live
    ensures i < |Run(Forge, ops).docs| && Run(Forge, ops).docs[i] == Run(Forge, ops[..k]).docs[i]
  {
    ForgeKeepsReviews();
    KeptInductive(Forge);
    OverRun(Forge, Kept, ops, k, i);
  }

  // ---- who wrote it -----------------------------------------------------------------------------------------

  lemma CountedIsProved(v: View)
    requires Passed(ReviewRules, v) && Get(v, verdict) in {Some(Int(1)), Some(Int(2))}
    ensures asMember in v && IntOf(v, mRole) <= 1
  {
    assert ReviewRules[4] == IfThenElse(In(Prop(verdict), [Int(1), Int(2)]), Proved,
                                        IfThen(In(Prop(verdict), [Int(4), Int(5)]), Absent(asMember)));
  }

  lemma ProofIsOwn(v: View)
    requires Passed(ReviewRules, v) && asMember in v
    ensures Get(v, asMember) == Get(v, ownerId)
  {
    assert ReviewRules[3] == MSelf;
  }

  /** A maintainer or a role-1 writer of the document's repository. */
  predicate MayJudge(docs: seq<Doc>, repo: Option<Value>, who: Option<Value>) {
    Maintains(docs, repo, who) || HasRole(docs, repo, who, 1)
  }

  lemma LowRole(docs: seq<Doc>, repo: Option<Value>, who: Option<Value>, n: int)
    requires n <= 1 && HasRole(docs, repo, who, n)
    requires forall i | 0 <= i < |docs| && docs[i].typ == Writer :: RoleOf(docs[i].view)
    ensures HasRole(docs, repo, who, 1)
  {
    var i :| 0 <= i < |docs| && Row(docs[i], Writer, repo, who) && Get(docs[i].view, role) == Some(Int(n));
    assert Get(docs[i].view, role) == Some(Int(1));
  }

  lemma WriterProof(s: State, who: Option<Value>, me: View)
    requires Sound(Forge, s) && IntOf(me, mRole) <= 1
    requires Finds(s.docs, Member(Writer, [(role, Agrees(mRole))]), who, me)
    ensures HasRole(s.docs, Get(me, repoId), who, 1)
  {
    WriterRoles(s);
    ClaimFound(s.docs, mRole, who, me);
    LowRole(s.docs, Get(me, repoId), who, me[mRole].n);
  }

  lemma ProofCases(s: State, who: Option<Value>, me: View)
    requires Sound(Forge, s) && IntOf(me, mRole) <= 1
    requires Refers(s.docs, AsMember, who, me)
    ensures MayJudge(s.docs, Get(me, repoId), who)
  {
    if Finds(s.docs, AsMember[0], who, me) {
      MaintainerFound(s.docs, who, me);
    } else {
      assert Finds(s.docs, AsMember[1], who, me);
      WriterProof(s, who, me);
    }
  }

  lemma {:induction false} AuthorRead(env: Env)
    requires Holds(AuthorNoVerdict, env) && Get(env.me, verdict) in {Some(Int(1)), Some(Int(2))}
    ensures var p := Lookup(env.docs, Get(env.me, patchId));
            p.Some? && ownerId in p.value.view && Get(p.value.view, ownerId) != Get(env.me, ownerId)
  {
  }

  lemma ReviewFacts(s: State, signer: nat, data: View)
    requires AcceptsCreate(Forge, s, signer, Review, data)
    ensures var me := CreatedView(s, signer, data);
            && Passed(ReviewRules, me)
            && Holds(AuthorNoVerdict, Env(s.docs + [Doc(Review, me, true)], me, None))
            && (asMember in me ==> Refers(s.docs, AsMember, Get(me, asMember), me))
  {
    CreateRefers(Forge, s, signer, Review, data, 2);
    assert ReviewSchema.refs[2] == (asMember, AsMember);
    assert ReviewSchema.chainRules[1] == AuthorNoVerdict;
  }

  lemma PatchFound(s: State, signer: nat, data: View) returns (p: nat)
    requires Sound(Forge, s) && AcceptsCreate(Forge, s, signer, Review, data)
    ensures var me := CreatedView(s, signer, data);
            Get(me, patchId) == Some(Ident(p)) && p < |s.docs| && s.docs[p].live && s.docs[p].typ == Patch
            && Get(s.docs[p].view, repoId) == Get(me, repoId)
  {
    var me := CreatedView(s, signer, data);
    CreateRefers(Forge, s, signer, Review, data, 1);
    assert ReviewSchema.refs[1] == (patchId, [ById(Patch, [(repoId, Agrees(repoId))])]);
    assert patchId in ReviewSchema.required;
    SoundIds(Forge, s);
    p := PatchOf(s.docs, me);
  }

  lemma PatchOf(docs: seq<Doc>, me: View) returns (p: nat)
    requires IdsArePositions(docs) && Refers(docs, [ById(Patch, [(repoId, Agrees(repoId))])], Get(me, patchId), me)
    ensures Get(me, patchId) == Some(Ident(p)) && p < |docs| && docs[p].live && docs[p].typ == Patch
    ensures Get(docs[p].view, repoId) == Get(me, repoId)
  {
    var conds := [(repoId, Agrees(repoId))];
    assert [ById(Patch, conds)][0] == Leaf(Patch, [(docId, Own)], conds);
    p := FoundById(docs, Patch, conds, Get(me, patchId), me);
    assert conds[0] == (repoId, Agrees(repoId));
  }

  lemma JudgeProved(s: State, me: View)
    requires Sound(Forge, s) && Passed(ReviewRules, me) && Get(me, verdict) in {Some(Int(1)), Some(Int(2))}
    requires asMember in me ==> Refers(s.docs, AsMember, Get(me, asMember), me)
    ensures MayJudge(s.docs, Get(me, repoId), Get(me, ownerId))
  {
    CountedIsProved(me);
    ProofIsOwn(me);
    ProofCases(s, Get(me, ownerId), me);
  }

  lemma NotTheirOwn(s: State, me: View, p: nat)
    requires Holds(AuthorNoVerdict, Env(s.docs + [Doc(Review, me, true)], me, None))
    requires Get(me, verdict) in {Some(Int(1)), Some(Int(2))} && Get(me, patchId) == Some(Ident(p)) && p < |s.docs|
    ensures Get(s.docs[p].view, ownerId) != Get(me, ownerId)
  {
    AuthorRead(Env(s.docs + [Doc(Review, me, true)], me, None));
  }

  /** What is true of a counted review when it is written. */
  predicate RightlyWritten(docs: seq<Doc>, me: View, p: nat) {
    && MayJudge(docs, Get(me, repoId), Get(me, ownerId))
    && Get(me, patchId) == Some(Ident(p)) && p < |docs| && docs[p].typ == Patch
    && Get(docs[p].view, repoId) == Get(me, repoId)
    && Get(docs[p].view, ownerId) != Get(me, ownerId)
  }

  lemma CountedCreate(s: State, signer: nat, data: View) returns (p: nat)
    requires Sound(Forge, s) && AcceptsCreate(Forge, s, signer, Review, data)
    requires Get(CreatedView(s, signer, data), verdict) in {Some(Int(1)), Some(Int(2))}
    ensures RightlyWritten(s.docs, CreatedView(s, signer, data), p)
  {
    var me := CreatedView(s, signer, data);
    ReviewFacts(s, signer, data);
    p := PatchFound(s, signer, data);
    JudgeProved(s, me);
    NotTheirOwn(s, me, p);
  }

  /** The operation `k` of the run is the one that wrote the review at position `i`, as it now stands. */
  ghost predicate WrittenBy(C: Contract, ops: seq<Op>, i: nat, k: nat) {
    && i < |Run(C, ops).docs|
    && k < |ops| && ops[k].Create? && ops[k].typ == Review
    && |Run(C, ops[..k]).docs| == i
    && Run(C, ops).docs[i].view == CreatedView(Run(C, ops[..k]), ops[k].signer, ops[k].data)
  }

  /** What is true of a counted review of a run: the operation `k` that wrote it was signed by someone
      who could judge at that moment, on a pull request of the same repository that is not theirs. */
  ghost predicate RightlyCounted(C: Contract, ops: seq<Op>, i: nat, k: nat, p: nat) {
    && WrittenBy(C, ops, i, k)
    && var d := Run(C, ops).docs[i];
    && Get(d.view, ownerId) == Some(Ident(ops[k].signer))
    && MayJudge(Run(C, ops[..k]).docs, Get(d.view, repoId), Some(Ident(ops[k].signer)))
    && Get(d.view, patchId) == Some(Ident(p)) && p < i
    && Run(C, ops).docs[p].typ == Patch
    && Get(Run(C, ops).docs[p].view, repoId) == Get(d.view, repoId)
    && Get(Run(C, ops).docs[p].view, ownerId) != Get(d.view, ownerId)
  }

  /** The review at position `i` is the one the operation that made it wrote: reviews are never replaced. */
  lemma {:induction false} ReviewAsWritten(C: Contract, ops: seq<Op>, i: nat) returns (k: nat)
    requires !C(Review).mutable && i < |Run(C, ops).docs| && Run(C, ops).docs[i].typ == Review
    ensures WrittenBy(C, ops, i, k)
    ensures AcceptsCreate(C, Run(C, ops[..k]), ops[k].signer, Review, ops[k].data)
  {
    k := Created(C, ops, i);
    RunStep(C, ops, k);
    RunGrows(C, ops, k + 1);
    var s := Run(C, ops[..k]);
    var written := Doc(ops[k].typ, CreatedView(s, ops[k].signer, ops[k].data), true);
    assert Run(C, ops[..k + 1]).docs[i] == written;
    AsWritten(C, written, Run(C, ops).docs[i]);
  }

  lemma AsWritten(C: Contract, a: Doc, b: Doc)
    requires !C(Review).mutable && Evolves(C, a, b) && b.typ == Review
    ensures a.typ == Review && b.view == a.view
  {
  }

  lemma PatchStands(C: Contract, before: seq<Doc>, after: seq<Doc>, me: View, p: nat)
    requires FrozenOutright(C(Patch), repoId)
    requires RightlyWritten(before, me, p) && |before| <= |after| && Evolves(C, before[p], after[p])
    ensures after[p].typ == Patch && Get(after[p].view, repoId) == Get(me, repoId) && Get(after[p].view, ownerId) != Get(me, ownerId)
  {
    assert FrozenOutright(C(Patch), ownerId);
  }

  lemma {:induction false} WrittenIsRight(C: Contract, ops: seq<Op>, i: nat, k: nat, p: nat)
    requires FrozenOutright(C(Patch), repoId)
    requires WrittenBy(C, ops, i, k) && RightlyWritten(Run(C, ops[..k]).docs, Run(C, ops).docs[i].view, p)
    ensures RightlyCounted(C, ops, i, k, p)
  {
    RunGrows(C, ops, k);
    PatchStands(C, Run(C, ops[..k]).docs, Run(C, ops).docs, Run(C, ops).docs[i].view, p);
  }

  lemma ReviewsAndPatches()
    ensures !Forge(Review).mutable && FrozenOutright(Forge(Patch), repoId)
  {
    assert Forge(Patch).frozen == PatchFrozen && PatchFrozen[0] == Frozen(repoId, True);
  }

  /** In every reachable state, every approve and every request for changes. */
  lemma {:induction false} EveryCountedReviewIsRight(ops: seq<Op>, i: nat) returns (k: nat, p: nat)
    requires i < |Run(Forge, ops).docs| && Counts(Run(Forge, ops).docs[i])
    ensures RightlyCounted(Forge, ops, i, k, p)
    ensures AcceptsCreate(Forge, Run(Forge, ops[..k]), ops[k].signer, Review, ops[k].data)
  {
    ReviewsAndPatches();
    k := ReviewAsWritten(Forge, ops, i);
    RunSound(Forge, ops[..k]);
    p := CountedCreate(Run(Forge, ops[..k]), ops[k].signer, ops[k].data);
    WrittenIsRight(Forge, ops, i, k, p);
  }
}
