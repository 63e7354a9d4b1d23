/** Which transitions a thread can see at all, what the lock gates read, and who merges and locks. */
module ThreadAuthority {
  import opened Rules
  import opened Chain
  import opened ForgeContracts
  import opened Totals
  import opened Membership
  import opened Threads

  // ---- issues are never drafted or merged ------------------------------------------------------------

  lemma KindOfTarget(v: View)
    requires Passed(TransitionLocalRules, v) && Charged(v)
    ensures Get(v, targetKind) == Some(Int(v[kind].n / 10)) || targetKind !in v
  {
    assert TransitionLocalRules[0] == Equal(Prop(targetKind), Divide(Prop(kind), 10));
  }

  lemma TargetTk(t: DocType, v: View)
    requires t in {Issue, Patch} && Standing(Forge(t), v)
    ensures Get(v, tk) == Some(Int(if t == Issue then 0 else 1))
  {
    TkSchema(t);
    BoundTk(Forge(t), if t == Issue then 0 else 1, v);
  }

  lemma TkSchema(t: DocType)
    requires t in {Issue, Patch}
    ensures var sch := Forge(t);
      tk in sch.required && |sch.bounds| > 2 && sch.bounds[2] == Equal(Prop(tk), Lit(Int(if t == Issue then 0 else 1)))
  {
    if t == Issue {
      assert IssueSchema.bounds[2] == Equal(Prop(tk), Lit(Int(0)));
    } else {
      assert PatchSchema.bounds[2] == Equal(Prop(tk), Lit(Int(1)));
    }
  }

  lemma BoundTk(sch: TypeSchema, n: int, v: View)
    requires tk in sch.required && |sch.bounds| > 2 && sch.bounds[2] == Equal(Prop(tk), Lit(Int(n))) && Standing(sch, v)
    ensures Get(v, tk) == Some(Int(n))
  {
    assert Holds(sch.bounds[2], Alone(v));
  }

  /** Document `p` of the log is the thread the transition names: live, of the transition's
      repository, and bearing the number and the kind the transition says. */
  predicate Names(docs: seq<Doc>, me: View, p: nat) {
    && Get(me, targetId) == Some(Ident(p)) && p < |docs| && docs[p].live && docs[p].typ in {Issue, Patch}
    && Get(docs[p].view, repoId) == Get(me, repoId)
    && Get(docs[p].view, number) == Get(me, targetNumber)
    && Get(docs[p].view, tk) == Get(me, targetKind)
  }

  lemma TargetFound(docs: seq<Doc>, t: DocType, me: View) returns (p: nat)
    requires IdsArePositions(docs) && t in {Issue, Patch} && Finds(docs, TargetLeaf(t), Get(me, targetId), me)
    ensures Names(docs, me, p)
  {
    var conds := [(repoId, Agrees(repoId)), (number, Agrees(targetNumber)), (tk, Agrees(targetKind))];
    p := FoundById(docs, t, conds, Get(me, targetId), me);
    assert conds[0] == (repoId, Agrees(repoId)) && conds[1] == (number, Agrees(targetNumber)) && conds[2] == (tk, Agrees(targetKind));
  }

  lemma TargetCases(docs: seq<Doc>, me: View) returns (p: nat)
    requires IdsArePositions(docs) && Refers(docs, [TargetLeaf(Issue), TargetLeaf(Patch)], Get(me, targetId), me)
    ensures Names(docs, me, p)
  {
    var leaves := [TargetLeaf(Issue), TargetLeaf(Patch)];
    var k :| 0 <= k < |leaves| && Finds(docs, leaves[k], Get(me, targetId), me);
    p := TargetFound(docs, if k == 0 then Issue else Patch, me);
  }

  lemma TargetRefers(s: State, signer: nat, data: View)
    requires AcceptsCreate(Forge, s, signer, Transition, data)
    ensures var me := CreatedView(s, signer, data);
            Refers(s.docs, [TargetLeaf(Issue), TargetLeaf(Patch)], Get(me, targetId), me)
  {
    CreateRefers(Forge, s, signer, Transition, data, 0);
    assert TransitionSchema.refs[0] == (targetId, [TargetLeaf(Issue), TargetLeaf(Patch)]);
    assert targetId in TransitionSchema.required;
  }

  lemma WrittenKind(s: State, signer: nat, data: View)
    requires AcceptsCreate(Forge, s, signer, Transition, data)
    ensures var me := CreatedView(s, signer, data);
            Charged(me) && Get(me, targetKind) == Some(Int(IntOf(me, kind) / 10))
  {
    var me := CreatedView(s, signer, data);
    StandingIsCharged(me);
    KindOfTarget(me);
    assert targetKind in TransitionSchema.required;
  }

  lemma TargetNamed(s: State, signer: nat, data: View) returns (p: nat)
    requires Sound(Forge, s) && AcceptsCreate(Forge, s, signer, Transition, data)
    ensures Names(s.docs, CreatedView(s, signer, data), p)
  {
    TargetRefers(s, signer, data);
    SoundIds(Forge, s);
    p := TargetCases(s.docs, CreatedView(s, signer, data));
  }

  /** An accepted transition names a live issue or pull request of its own repository, by its number;
      an issue kind names an issue and a pull request kind a pull request. */
  lemma KindFitsTarget(s: State, signer: nat, data: View) returns (p: nat)
    requires Sound(Forge, s) && AcceptsCreate(Forge, s, signer, Transition, data)
    ensures var me := CreatedView(s, signer, data);
            Names(s.docs, me, p) && (s.docs[p].typ == Issue <==> IntOf(me, kind) < 10)
  {
    WrittenKind(s, signer, data);
    p := TargetNamed(s, signer, data);
    TargetKindOf(s, p);
  }

  lemma TargetKindOf(s: State, p: nat)
    requires Sound(Forge, s) && p < |s.docs| && s.docs[p].typ in {Issue, Patch}
    ensures Get(s.docs[p].view, tk) == Some(Int(if s.docs[p].typ == Issue then 0 else 1))
  {
    assert StoredAt(Forge(s.docs[p].typ), s.docs[p].view, p, s.now);
    TargetTk(s.docs[p].typ, s.docs[p].view);
  }

  predicate IssuePhase(th: Option<Thread>) {
    th.Some? ==> th.value.phase in {Open, Closed}
  }

  lemma IssueKindsKeepIssuePhase(th: Thread, k: int)
    requires th.phase in {Open, Closed} && k < 10
    ensures IssuePhase(Move(th, k))
  {
  }

  lemma StepIssue(s: State, op: Op, target: nat)
    requires Sound(Forge, s) && Booked(s.docs, Some(Ident(target))) && IssuePhase(Replay(s.docs, Some(Ident(target))))
    requires target < |Apply(Forge, s, op).docs| && Apply(Forge, s, op).docs[target].typ == Issue
    ensures IssuePhase(Replay(Apply(Forge, s, op).docs, Some(Ident(target))))
  {
    var t := Some(Ident(target));
    StepAppends(Forge, s, op, Transition);
    if Accepts(Forge, s, op) && op.Create? {
      var d := Doc(op.typ, CreatedView(s, op.signer, op.data), true);
      LedgerAppend(s.docs, d, t);
      if op.typ == Transition && Concerns(d, t) {
        var p := KindFitsTarget(s, op.signer, op.data);
        IssueKindsKeepIssuePhase(Replay(s.docs, t).value, IntOf(d.view, kind));
      }
    } else {
      LedgerUnmoved(s.docs, Apply(Forge, s, op).docs, t);
    }
  }

  /** An issue is only ever open or closed: draft and merged are for pull requests. (Nothing is booked
      on a position the log has not reached.) */
  lemma {:induction false} IssuesOpenOrClosed(ops: seq<Op>, target: nat)
    requires target < |Run(Forge, ops).docs| ==> Run(Forge, ops).docs[target].typ == Issue
    ensures ThreadAt(ops, Some(Ident(target))).phase in {Open, Closed}
  {
    var t := Some(Ident(target));
    RunBooked(ops, t);
    if ops != [] {
      var front := ops[..|ops| - 1];
      var s := Run(Forge, front);
      RunSound(Forge, front);
      RunBooked(front, t);
      StepGrows(Forge, s, ops[|ops| - 1]);
      if target < |s.docs| {
        assert Evolves(Forge, s.docs[target], Run(Forge, ops).docs[target]);
      }
      IssuesOpenOrClosed(front, target);
      StepIssueOrAbsent(s, ops[|ops| - 1], target);
    }
  }

  lemma StepIssueOrAbsent(s: State, op: Op, target: nat)
    requires Sound(Forge, s) && Booked(s.docs, Some(Ident(target))) && IssuePhase(Replay(s.docs, Some(Ident(target))))
    requires target < |Apply(Forge, s, op).docs| ==> Apply(Forge, s, op).docs[target].typ == Issue
    ensures IssuePhase(Replay(Apply(Forge, s, op).docs, Some(Ident(target))))
  {
    if target < |Apply(Forge, s, op).docs| {
      StepIssue(s, op, target);
    } else {
      var t := Some(Ident(target));
      StepAppends(Forge, s, op, Transition);
      if Accepts(Forge, s, op) && op.Create? {
        var d := Doc(op.typ, CreatedView(s, op.signer, op.data), true);
        LedgerAppend(s.docs, d, t);
        if op.typ == Transition && Concerns(d, t) {
          var p := KindFitsTarget(s, op.signer, op.data);
        }
      } else {
        LedgerUnmoved(s.docs, Apply(Forge, s, op).docs, t);
      }
    }
  }

  // ---- the lock ------------------------------------------------------------------------------------------

  /** The gate on a new comment reads the lock of its thread: in every reachable state it lets a
      writer without a member proof through exactly when the thread is unlocked. */
  lemma {:induction false} CommentGateReadsLock(ops: seq<Op>, signer: nat, data: View)
    ensures var s := Run(Forge, ops);
            var me := CreatedView(s, signer, data);
            Holds(CommentLockGate, Env(s.docs + [Doc(Comment, me, true)], me, None)) <==>
              asMember in me || !ThreadAt(ops, Get(me, targetId)).locked
  {
    var s := Run(Forge, ops);
    var me := CreatedView(s, signer, data);
    var d := Doc(Comment, me, true);
    SumIsTotal(s.docs + [d], me, targetId);
    LedgerAppend(s.docs, d, Get(me, targetId));
    SumIsThreadCode(ops, Get(me, targetId));
    GateMeans(Env(s.docs + [d], me, None), ThreadAt(ops, Get(me, targetId)).locked);
  }

  lemma {:induction false} GateMeans(env: Env, locked: bool)
    requires Get(env.me, revision) == Some(Int(1))
    requires SumDocs(env.docs, Transition, delta, env.me, [(targetId, targetId)]) >= 16 <==> locked
    ensures Holds(CommentLockGate, env) <==> asMember in env.me || !locked
  {
  }

  lemma {:induction false} ReviewGateReadsLock(ops: seq<Op>, signer: nat, data: View)
    ensures var s := Run(Forge, ops);
            var me := CreatedView(s, signer, data);
            Holds(ReviewLockGate, Env(s.docs + [Doc(Review, me, true)], me, None)) <==>
              asMember in me || !ThreadAt(ops, Get(me, patchId)).locked
  {
    var s := Run(Forge, ops);
    var me := CreatedView(s, signer, data);
    var d := Doc(Review, me, true);
    SumIsTotal(s.docs + [d], me, patchId);
    LedgerAppend(s.docs, d, Get(me, patchId));
    SumIsThreadCode(ops, Get(me, patchId));
    ReviewGateMeans(Env(s.docs + [d], me, None), ThreadAt(ops, Get(me, patchId)).locked);
  }

  lemma {:induction false} ReviewGateMeans(env: Env, locked: bool)
    requires SumDocs(env.docs, Transition, delta, env.me, [(targetId, patchId)]) >= 16 <==> locked
    ensures Holds(ReviewLockGate, env) <==> asMember in env.me || !locked
  {
  }

  // ---- merges and locks are members' acts ------------------------------------------------------------------

  lemma NotByAuthor(v: View)
    requires Passed(TransitionLocalRules, v) && Charged(v) && v[kind].n in {13, 3, 4, 18, 19}
    ensures Get(v, asAuthor) in {None, Some(Int(0))}
  {
    assert TransitionLocalRules[6] == Or(Equal(Prop(asAuthor), Lit(Int(0))), NotEqual(Prop(kind), Lit(Int(13))));
    assert TransitionLocalRules[7] == Or(Equal(Prop(asAuthor), Lit(Int(0))), NotIn(Prop(kind), LockKinds));
  }

  lemma MergeClaimsOne(v: View)
    requires Passed(TransitionLocalRules, v) && Charged(v)
    ensures v[kind].n == 13 ==> IntOf(v, rClaim) == 1
  {
    assert TransitionLocalRules[5] == And(Or(NotEqual(Prop(kind), Lit(Int(13))), Present(oid)),
      And(IfThen(In(Prop(kind), [Int(13), Int(14), Int(15)]), Equal(Prop(rClaim), Lit(Int(1)))),
          In(Prop(rClaim), [Int(1), Int(2)])));
  }

  lemma AuthorNumber(docs: seq<Doc>, t: DocType, who: Option<Value>, me: View)
    requires t in {Issue, Patch} && Finds(docs, AuthorLeaf(t), who, me)
    requires forall i | 0 <= i < |docs| && docs[i].typ == t :: IntOf(docs[i].view, number) >= 1
    ensures IntOf(me, asAuthor) >= 1
  {
    var leaf := AuthorLeaf(t);
    var i :| 0 <= i < |docs| && Serves(docs[i], leaf, who, me);
    assert leaf.conds[1] == (number, Agrees(asAuthor));
  }

  lemma Numbered(s: State, t: DocType)
    requires Sound(Forge, s) && t in {Issue, Patch}
    ensures forall i | 0 <= i < |s.docs| && s.docs[i].typ == t :: IntOf(s.docs[i].view, number) >= 1
  {
    forall i | 0 <= i < |s.docs| && s.docs[i].typ == t ensures IntOf(s.docs[i].view, number) >= 1 {
      assert StoredAt(Forge(t), s.docs[i].view, i, s.now);
      if t == Issue { IssueNumber(s.docs[i].view); } else { PatchNumber(s.docs[i].view); }
    }
  }

  lemma IssueNumber(v: View)
    requires Standing(IssueSchema, v)
    ensures IntOf(v, number) >= 1
  {
    BoundedNumber(IssueSchema.bounds, v);
  }

  lemma PatchNumber(v: View)
    requires Standing(PatchSchema, v)
    ensures IntOf(v, number) >= 1
  {
    BoundedNumber(PatchSchema.bounds, v);
  }

  lemma BoundedNumber(bounds: seq<Rule>, v: View)
    requires Passed(bounds, v) && |bounds| > 1 && bounds[1] == NumberBounds
    ensures IntOf(v, number) >= 1
  {
    assert Holds(NumberBounds, Alone(v));
  }

  lemma ClaimBoundsUnder(sch: TypeSchema, v: View, k: nat)
    requires Standing(sch, v) && rClaim in sch.required && k < |sch.bounds| && sch.bounds[k] == MemberClaimBounds
    ensures rClaim in v && v[rClaim].Int? && 1 <= v[rClaim].n <= 2
  {
    RequiredInt(sch, v, rClaim);
    assert Holds(sch.bounds[k], Alone(v));
  }

  lemma ClaimBounds(v: View)
    requires Standing(TransitionSchema, v)
    ensures rClaim in v && v[rClaim].Int? && 1 <= v[rClaim].n <= 2
  {
    ClaimBoundsUnder(TransitionSchema, v, 3);
  }

  /** The claims of a merge or a lock: not as the author, and for a merge as a role-1 writer. */
  predicate MemberClaim(v: View) {
    && Get(v, asAuthor) in {None, Some(Int(0))}
    && rClaim in v && v[rClaim].Int? && 1 <= v[rClaim].n <= 2
    && (IntOf(v, kind) == 13 ==> v[rClaim].n == 1)
  }

  lemma StandingClaims(v: View)
    requires Standing(TransitionSchema, v) && IntOf(v, kind) in {13, 3, 4, 18, 19}
    ensures MemberClaim(v)
  {
    StandingIsCharged(v);
    NotByAuthor(v);
    MergeClaimsOne(v);
    ClaimBounds(v);
  }

  /** A maintainer, a role-1 writer, or (but for a merge, kind 13) a role-2 writer of the repository. */
  predicate ByMember(docs: seq<Doc>, repo: Option<Value>, who: Option<Value>, k: int) {
    || Maintains(docs, repo, who)
    || HasRole(docs, repo, who, 1)
    || (k != 13 && HasRole(docs, repo, who, 2))
  }

  lemma ClaimedRole(docs: seq<Doc>, who: Option<Value>, me: View)
    requires MemberClaim(me) && HasRole(docs, Get(me, repoId), who, me[rClaim].n)
    ensures ByMember(docs, Get(me, repoId), who, IntOf(me, kind))
  {
    var n := me[rClaim].n;
    assert n == 1 || (n == 2 && IntOf(me, kind) != 13);
  }

  lemma OwnerIsMember(s: State, k: nat, who: Option<Value>, me: View)
    requires Sound(Forge, s) && k < 2 && Finds(s.docs, TransitionSchema.ownerRef[k], who, me)
    requires MemberClaim(me)
    ensures ByMember(s.docs, Get(me, repoId), who, IntOf(me, kind))
  {
    if k == 0 {
      MaintainerFound(s.docs, who, me);
    } else {
      WriterRoles(s);
      ClaimFound(s.docs, rClaim, who, me);
      ClaimedRole(s.docs, who, me);
    }
  }

  lemma OwnerIsAuthor(s: State, k: nat, who: Option<Value>, me: View)
    requires Sound(Forge, s) && 2 <= k < 4 && Finds(s.docs, TransitionSchema.ownerRef[k], who, me)
    ensures IntOf(me, asAuthor) >= 1
  {
    var t := if k == 2 then Issue else Patch;
    Numbered(s, t);
    AuthorNumber(s.docs, t, who, me);
  }

  lemma OwnerCases(s: State, who: Option<Value>, me: View)
    requires Sound(Forge, s) && MemberClaim(me)
    requires Refers(s.docs, TransitionSchema.ownerRef, who, me)
    ensures ByMember(s.docs, Get(me, repoId), who, IntOf(me, kind))
  {
    var k :| 0 <= k < |TransitionSchema.ownerRef| && Finds(s.docs, TransitionSchema.ownerRef[k], who, me);
    if k < 2 { OwnerIsMember(s, k, who, me); } else { OwnerIsAuthor(s, k, who, me); }
  }

  lemma WrittenClaims(s: State, signer: nat, data: View)
    requires AcceptsCreate(Forge, s, signer, Transition, data)
    requires IntOf(CreatedView(s, signer, data), kind) in {13, 3, 4, 18, 19}
    ensures MemberClaim(CreatedView(s, signer, data))
    ensures Refers(s.docs, TransitionSchema.ownerRef, Some(Ident(signer)), CreatedView(s, signer, data))
  {
    StandingClaims(CreatedView(s, signer, data));
    CreateOwner(Forge, s, signer, Transition, data);
  }

  /** An accepted merge was written by a maintainer or a role-1 writer, and an accepted lock or
      unlock by a maintainer or a role-1 or role-2 writer, of the repository of the very thread it
      merges or locks, at that moment. */
  lemma MergesAndLocksAreMembers(s: State, signer: nat, data: View) returns (p: nat)
    requires Sound(Forge, s) && AcceptsCreate(Forge, s, signer, Transition, data)
    requires IntOf(CreatedView(s, signer, data), kind) in {13, 3, 4, 18, 19}
    ensures Names(s.docs, CreatedView(s, signer, data), p)
    ensures ByMember(s.docs, Get(s.docs[p].view, repoId), Some(Ident(signer)), IntOf(CreatedView(s, signer, data), kind))
  {
    WrittenClaims(s, signer, data);
    OwnerCases(s, Some(Ident(signer)), CreatedView(s, signer, data));
    p := TargetNamed(s, signer, data);
  }
}
