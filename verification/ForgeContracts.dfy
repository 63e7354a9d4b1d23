/** The registered rules of the four-contract set, type by type, as `build` leaves them with every
    built mainnet item on. A rule keeps the name it has in the contract. Bounds are the schema
    keywords (enum, minimum, maximum) the rules lean on; patterns and lengths are not repeated. */
module ForgeContracts {
  import opened Rules
  import opened Chain

  const Public := Text("public")
  const Private := Text("private")
  const Completed := Text("completed")
  const InProgress := Text("in_progress")
  const Queued := Text("queued")

  const IsPublic: Rule := Equal(Prop(vis), Lit(Public))
  const NotPrivate: Rule := NotEqual(Prop(vis), Lit(Private))
  const VisEnum: Rule := In(Prop(vis), [Public, Private])

  function Between(f: Field, lo: int, hi: int): Rule {
    And(AtMost(Lit(Int(lo)), Prop(f)), AtMost(Prop(f), Lit(Int(hi))))
  }

  function Optionally(f: Field, rule: Rule): Rule {
    Or(Absent(f), rule)
  }

  const U32: int := 4294967295
  const GrantTtlMs: int := 7776000000

  /** `findBy {repoId, memberId: "."}`: the value holds a document of `t` in the same repo. */
  function Member(t: DocType, conds: seq<(Field, Cond)>): Leaf {
    Leaf(t, [(repoId, From(repoId)), (memberId, Own)], conds)
  }

  function ById(t: DocType, conds: seq<(Field, Cond)>): Leaf {
    Leaf(t, [(docId, Own)], conds)
  }

  /** `repoId` names the repo, and the document's `vis` is that repo's visibility. */
  const RepoVis: seq<Leaf> := [ById(Repo, [(visibility, Agrees(vis))])]

  function OidRule(f: Field): Rule {
    In(Count(f), [Int(20), Int(32)])
  }

  function OptionalOidRule(f: Field): Rule {
    In(Count(f), [Int(0), Int(20), Int(32)])
  }

  // ---- forge-core -------------------------------------------------------------------------

  const RepoRules: seq<Rule> := [
    /* forkIsPublic */ Or(Absent(forkOf), Equal(Prop(visibility), Lit(Public))),
    /* privateNoBranch */ Or(Equal(Prop(visibility), Lit(Public)), Absent(defaultBranch)),
    /* nameNotDotGit */ Not(EndsWith(Prop(repoName), Lit(Text(".git"))))]

  const RepoFrozen: seq<Frozen> := [
    Frozen(repoName, True), Frozen(forkOf, True), Frozen(visibility, Equal(OldProp(visibility), Lit(Public)))]

  const RepoSchema := TypeSchema(
    mutable := true, deletable := false,
    required := {repoName, visibility},
    dependent := [],
    bounds := [In(Prop(visibility), [Public, Private])],
    rules := RepoRules,
    chainRules := [],
    frozen := RepoFrozen,
    unique := [[ownerId, repoName]],
    ownerRef := [],
    refs := [(forkOf, [ById(Repo, [(visibility, Agrees(visibility))])])],
    mayDelete := True)

  const OwnerOrConsented: Rule := Or(Equal(Prop(memberId), Prop(ownerId)), Equal(Prop(consentBy), Prop(memberId)))

  const MemberRefs: seq<(Field, seq<Leaf>)> := [
    (repoId, [ById(Repo, [(ownerId, Agrees(ownerId)), (visibility, Agrees(vis))])]),
    (consentBy, [Leaf(Consent, [(repoId, From(repoId)), (ownerId, Own)], [])])]

  const MaintainerSchema := TypeSchema(
    mutable := false, deletable := true,
    required := {repoId, memberId, vis},
    dependent := [],
    bounds := [VisEnum],
    rules := [OwnerOrConsented],
    chainRules := [],
    frozen := [],
    unique := [[repoId, memberId]],
    ownerRef := [],
    refs := MemberRefs,
    mayDelete := /* ownerRowStays */ NotEqual(Prop(memberId), Prop(ownerId)))

  const WriterSchema := TypeSchema(
    mutable := false, deletable := true,
    required := {repoId, memberId, vis, role},
    dependent := [],
    bounds := [VisEnum, Between(role, 1, 4)],
    rules := [OwnerOrConsented],
    chainRules := [],
    frozen := [],
    unique := [[repoId, memberId]],
    ownerRef := [],
    refs := MemberRefs,
    mayDelete := True)

  const ConsentSchema := TypeSchema(
    mutable := false, deletable := true,
    required := {repoId},
    dependent := [], bounds := [], rules := [], chainRules := [], frozen := [],
    unique := [[repoId, ownerId]],
    ownerRef := [],
    refs := [(repoId, [ById(Repo, [])])],
    mayDelete := True)

  const PushGrantRules: seq<Rule> := [
    /* ttl90 */ And(LessThan(Prop(createdAt), Prop(until)),
                    AtMost(Prop(until), Add(Prop(createdAt), Lit(Int(GrantTtlMs))))),
    /* oneScope */ Or(And(Present(scope), Absent(prefix)), And(Absent(scope), Present(prefix))),
    /* headsOnly */ Or(Absent(prefix), StartsWith(Prop(prefix), Lit(Text("refs/heads/"))))]

  const PushGrantSchema := TypeSchema(
    mutable := false, deletable := true,
    required := {repoId, botId, until},
    dependent := [],
    bounds := [AtMost(Lit(Int(0)), Prop(until))],
    rules := PushGrantRules,
    chainRules := [],
    frozen := [], unique := [],
    ownerRef := [Member(Maintainer, [])],
    refs := [(botId, [Member(Writer, [(role, IsValue(Int(4)))])])],
    mayDelete := True)

  function NoPlainCore(plain: Rule): Rule {
    Or(And(Absent(enc), IsPublic), plain)
  }

  const HasName: Rule := Or(Present(enc), Present(refName))
  const NoLock: Rule := Not(EndsWith(Prop(refName), Lit(Text(".lock"))))
  const RefOidWidth: Rule := And(OidRule(newOid), OptionalOidRule(prevOid))

  const BotGrant: Rule :=
    IfThenElse(Equal(Prop(rClaim), Lit(Int(4))),
               And(Or(Present(pg), Present(pp)), Or(Absent(pg), Present(enc))),
               Equal(Prop(rClaim), Lit(Int(1))))
  const GrantPrefix: Rule := Or(Absent(pp), StartsWith(Prop(refName), Referenced(pp, prefix)))

  function GrantLeaf(extra: seq<(Field, Cond)>): Leaf {
    ById(PushGrant, [(repoId, Agrees(repoId)), (botId, Agrees(ownerId)), (ownerId, Agrees(grantor)),
                     (until, NotBefore(createdAt))] + extra)
  }

  const RefUpdateRules: seq<Rule> := [NoPlainCore(Absent(refName)), HasName, NoLock, RefOidWidth, BotGrant]

  const RefUpdateSchema := TypeSchema(
    mutable := false, deletable := false,
    required := {repoId, refNameHash, newOid, vis, rClaim},
    dependent := [(enc, epoch)],
    bounds := [VisEnum, Between(rClaim, 1, 4)],
    rules := RefUpdateRules,
    chainRules := [GrantPrefix],
    frozen := [], unique := [],
    ownerRef := [Member(Maintainer, []), Member(Writer, [(role, Agrees(rClaim))])],
    refs := [(repoId, RepoVis),
             (pg, [GrantLeaf([(scope, Agrees(refNameHash))])]),
             (pp, [GrantLeaf([])]),
             (grantor, [Member(Maintainer, [])])],
    mayDelete := True)

  const ProtectedRefUpdateSchema := TypeSchema(
    mutable := false, deletable := false,
    required := {repoId, refNameHash, newOid, vis},
    dependent := [(enc, epoch)],
    bounds := [VisEnum],
    rules := [NoPlainCore(Absent(refName)), HasName, NoLock, RefOidWidth],
    chainRules := [],
    frozen := [], unique := [],
    ownerRef := [Member(Maintainer, [])],
    refs := [(repoId, RepoVis)],
    mayDelete := True)

  const ConfigRules: seq<Rule> := [
    NoPlainCore(AllAbsent([defaultBranch, protectedPatterns, movedTo])),
    /* encV2 */ Or(Absent(enc), And(AtMost(Lit(Int(61)), Count(enc)), Equal(Byte0(enc), Lit(Int(2)))))]

  const ConfigSchema := TypeSchema(
    mutable := false, deletable := false,
    required := {repoId, vis},
    dependent := [(enc, epoch)],
    bounds := [VisEnum],
    rules := ConfigRules,
    chainRules := [],
    frozen := [], unique := [],
    ownerRef := [Member(Maintainer, [])],
    refs := [(repoId, RepoVis)],
    mayDelete := True)

  const PerTag: Keys := [(repoId, repoId), (tagName, tagName)]

  const OneLive: Rule :=
    IfThenElse(Present(enc), Equal(Prop(delta), Lit(Int(0))),
               Equal(SumOf(Release, delta, PerTag), Min(Add(Prop(delta), Lit(Int(1))), Lit(Int(1)))))

  const ReleaseRules: seq<Rule> := [
    NoPlainCore(AllAbsent([releaseName, notes, assets, assetManifest])),
    /* targetOnPublish */ IfThenElse(Present(enc), Absent(targetOid),
                                     Or(NotEqual(Prop(delta), Lit(Int(1))), Present(targetOid)))]

  const ReleaseSchema := TypeSchema(
    mutable := false, deletable := false,
    required := {repoId, tagName, vis, delta},
    dependent := [(enc, epoch)],
    bounds := [VisEnum, Between(delta, -1, 1)],
    rules := ReleaseRules,
    chainRules := [OneLive],
    frozen := [], unique := [],
    ownerRef := [Member(Maintainer, [])],
    refs := [(repoId, RepoVis)],
    mayDelete := True)

  const PerPack: Keys := [(repoId, repoId), (ownerId, ownerId), (packHash, packHash)]

  const PlatformChunks: Rule :=
    IfThen(Equal(Prop(storage), Lit(Int(0))),
           And(Equal(CountOf(Chunk, PerPack), Prop(chunkCount)),
               Equal(SumOf(Chunk, seqNo, PerPack),
                     Divide(Multiply(Prop(chunkCount), Subtract(Prop(chunkCount), Lit(Int(1)))), 2))))

  const PackManifestRules: seq<Rule> := [
    /* storageShape */ IfThenElse(Equal(Prop(storage), Lit(Int(0))),
                                  AtMost(Prop(sizeBytes), Multiply(Prop(chunkCount), Lit(Int(14700)))),
                                  Equal(Prop(chunkCount), Lit(Int(0)))),
    /* kindShape */ And(Equal(Modulo(Count(supersedes), 32), Lit(Int(0))),
                        IfThen(Equal(Prop(kind), Lit(Int(3))), In(Count(tips), [Int(20), Int(32), Int(40), Int(64)]))),
    /* sizeNonNeg */ Between(sizeBytes, 0, 1099511627776),
    /* maintKinds */ IfThen(In(Prop(kind), [Int(7), Int(8), Int(9), Int(11)]), Equal(Prop(rClaim), Lit(Int(0)))),
    /* botPack */ IfThenElse(Equal(Prop(rClaim), Lit(Int(4))),
                             And(In(Prop(kind), [Int(0), Int(1), Int(6), Int(64), Int(65), Int(70)]), Absent(supersedes)),
                             In(Prop(rClaim), [Int(0), Int(1)]))]

  const PackManifestSchema := TypeSchema(
    mutable := false, deletable := false,
    required := {repoId, packHash, kind, sizeBytes, chunkCount, storage, rClaim},
    dependent := [],
    bounds := [Between(kind, 0, 255), Between(chunkCount, 0, U32), Between(storage, 0, 1), Between(rClaim, 0, 4)],
    rules := PackManifestRules,
    chainRules := [PlatformChunks],
    frozen := [],
    unique := [[repoId, ownerId, packHash]],
    ownerRef := [Member(Maintainer, []), Member(Writer, [(role, Agrees(rClaim))])],
    refs := [],
    mayDelete := True)

  const ChunkSchema := TypeSchema(
    mutable := false, deletable := false,
    required := {repoId, packHash, seqNo},
    dependent := [],
    bounds := [Between(seqNo, 0, U32)],
    rules := [],
    chainRules := [],
    frozen := [],
    unique := [[repoId, ownerId, packHash, seqNo]],
    ownerRef := [Member(Maintainer, []), Member(Writer, [(role, OneOf([Int(1), Int(4)]))])],
    refs := [],
    mayDelete := True)

  // ---- forge-collab -----------------------------------------------------------------------

  /** `$defs.member`: a maintainer, or a writer whose role is the claimed `mRole`. */
  const AsMember: seq<Leaf> := [Member(Maintainer, []), Member(Writer, [(role, Agrees(mRole))])]

  const SealedDependent: seq<(Field, Field)> :=
    [(enc, epoch), (enc, aud), (aud, enc), (importedAuthor, imported), (importedUrl, imported)]

  const SealedIfPrivate: Rule := Or(NotPrivate, And(Present(aud), Present(asMember)))
  const MSelf: Rule := Or(Absent(asMember), Equal(Prop(asMember), Prop(ownerId)))
  const AudMember: Rule := IfThen(Equal(Prop(aud), Lit(Int(1))), Present(asMember))
  const Proved: Rule := And(Present(asMember), AtMost(Prop(mRole), Lit(Int(1))))
  const EncFraming: Rule :=
    And(NotEqual(Byte0(enc), Lit(Int(2))),
        And(IfThen(IsPublic, NotEqual(Byte0(enc), Lit(Int(1)))),
            IfThen(Equal(Prop(aud), Lit(Int(1))), NotEqual(Byte0(enc), Lit(Int(4))))))

  const PerRepo: Keys := [(repoId, repoId)]
  const Dense: Rule :=
    IfThen(Equal(Prop(revision), Lit(Int(1))),
           Equal(Prop(number), Add(CountOf(Issue, PerRepo), CountOf(Patch, PerRepo))))

  const NumberBounds: Rule := Between(number, 1, U32)
  const AudBounds: Rule := Optionally(aud, Between(aud, 1, 2))
  const MRoleBounds: Rule := Optionally(mRole, Between(mRole, 1, 4))

  /** `aud` is frozen on a public document and while the written one keeps it. */
  const AudFrozen: Frozen := Frozen(aud, Or(OldAbsent(aud), Present(aud)))

  /** Settable once, in the replace that drops `aud`. */
  function SettableOnce(f: Field): Frozen {
    Frozen(f, Or(OldPresent(f), Or(OldAbsent(aud), Present(aud))))
  }

  const HasTitle: Rule := Or(Present(enc), Present(title))
  const NumberedProvenance: Rule := Or(AllAbsent([imported, upstreamNumber]), Proved)

  const IssueRules: seq<Rule> := [
    /* noPlain */ Or(Absent(enc), AllAbsent([title, body, importedAuthor, importedUrl])),
    HasTitle, SealedIfPrivate, MSelf, NumberedProvenance, AudMember, EncFraming]

  const IssueFrozen: seq<Frozen> := [
    Frozen(repoId, True), Frozen(number, True), Frozen(tk, True), Frozen(upstreamNumber, True),
    Frozen(vis, True), Frozen(imported, True),
    Frozen(importedAuthor, True), Frozen(importedUrl, True), AudFrozen]

  const IssueSchema := TypeSchema(
    mutable := true, deletable := false,
    required := {repoId, number, tk, vis},
    dependent := SealedDependent,
    bounds := [VisEnum, NumberBounds, Equal(Prop(tk), Lit(Int(0))), AudBounds, MRoleBounds],
    rules := IssueRules,
    chainRules := [Dense],
    frozen := IssueFrozen,
    unique := [[repoId, number], [ownerId, repoId, number]],
    ownerRef := [],
    refs := [(repoId, RepoVis), (asMember, AsMember)],
    mayDelete := True)

  const PatchRules: seq<Rule> := [
    /* noPlain */ Or(Absent(enc), AllAbsent([title, body, baseRefName, sourceRefName, importedAuthor, importedUrl])),
    HasTitle, SealedIfPrivate, MSelf, NumberedProvenance, OidRule(headOid), AudMember, EncFraming]

  const PatchFrozen: seq<Frozen> := [
    Frozen(repoId, True), Frozen(number, True), Frozen(sourceRepoId, True), Frozen(baseRefNameHash, True),
    Frozen(sourceRefNameHash, True), Frozen(headOid, True), Frozen(tk, True), Frozen(upstreamNumber, True),
    Frozen(vis, True), Frozen(imported, True),
    Frozen(importedAuthor, True), Frozen(importedUrl, True), AudFrozen, SettableOnce(baseRefName), SettableOnce(sourceRefName)]

  const PatchSchema := TypeSchema(
    mutable := true, deletable := false,
    required := {repoId, number, tk, vis, baseRefNameHash, sourceRepoId, headOid},
    dependent := SealedDependent,
    bounds := [VisEnum, NumberBounds, Equal(Prop(tk), Lit(Int(1))), AudBounds, MRoleBounds],
    rules := PatchRules,
    chainRules := [Dense],
    frozen := PatchFrozen,
    unique := [[repoId, number], [ownerId, repoId, number]],
    ownerRef := [],
    refs := [(repoId, RepoVis), (sourceRepoId, [ById(Repo, [])]), (asMember, AsMember)],
    mayDelete := True)

  function Ledger(target: Field): Term {
    SumOf(Transition, delta, [(targetId, target)])
  }

  const CommentLockGate: Rule :=
    Or(Present(asMember), Or(LessThan(Lit(Int(1)), Prop(revision)), LessThan(Ledger(targetId), Lit(Int(16)))))

  const CommentRules: seq<Rule> := [
    /* noPlain */ Or(Absent(enc), AllAbsent([body, path, importedAuthor, importedUrl, diffHunk])),
    /* hasBody */ Or(Present(enc), Present(body)),
    SealedIfPrivate, MSelf,
    /* i_provenance */ Or(Absent(imported), Proved),
    OptionalOidRule(commitOid),
    /* noParentSet */ Absent(noParent),
    /* rangeOrder */ Or(Absent(startLine), And(Present(line), AtMost(Prop(startLine), Prop(line)))),
    AudMember, EncFraming]

  const CommentFrozen: seq<Frozen> := [
    Frozen(repoId, True), Frozen(targetId, True), Frozen(replyTo, True), Frozen(commitOid, True),
    Frozen(line, True), Frozen(side, True), Frozen(startLine, True), Frozen(reviewId, True), Frozen(vis, True),
    Frozen(imported, True),
    Frozen(importedAuthor, True), Frozen(importedUrl, True), AudFrozen, SettableOnce(path), SettableOnce(diffHunk)]

  const CommentSchema := TypeSchema(
    mutable := true, deletable := true,
    required := {repoId, targetId, vis},
    dependent := SealedDependent,
    bounds := [VisEnum, AudBounds, MRoleBounds],
    rules := CommentRules,
    chainRules := [CommentLockGate],
    frozen := CommentFrozen,
    unique := [],
    ownerRef := [],
    refs := [(repoId, RepoVis),
             (targetId, [ById(Issue, [(repoId, Agrees(repoId))]), ById(Patch, [(repoId, Agrees(repoId))])]),
             (replyTo, [ById(Comment, [(targetId, Agrees(targetId)), (replyTo, Agrees(noParent))])]),
             (reviewId, [ById(Review, [(repoId, Agrees(repoId)), (patchId, Agrees(targetId)), (ownerId, Agrees(ownerId))])]),
             (asMember, AsMember)],
    mayDelete := True)

  const CountedVerdicts: seq<Value> := [Int(1), Int(2)]

  const ReviewLockGate: Rule := Or(Present(asMember), LessThan(Ledger(patchId), Lit(Int(16))))
  const AuthorNoVerdict: Rule :=
    IfThen(In(Prop(verdict), CountedVerdicts), NotEqual(Prop(ownerId), Referenced(patchId, ownerId)))

  const ReviewRules: seq<Rule> := [
    /* noPlain */ Or(Absent(enc), AllAbsent([body, importedAuthor, importedUrl])),
    SealedIfPrivate, OidRule(commitOid), MSelf,
    /* memberVerdict */ IfThenElse(In(Prop(verdict), CountedVerdicts), Proved,
                                   IfThen(In(Prop(verdict), [Int(4), Int(5)]), Absent(asMember))),
    AudMember,
    /* i_provenance */ Or(Absent(imported), Proved),
    EncFraming]

  const ReviewSchema := TypeSchema(
    mutable := false, deletable := true,
    required := {repoId, patchId, verdict, commitOid, vis},
    dependent := SealedDependent,
    bounds := [VisEnum, Between(verdict, 1, 5), AudBounds, MRoleBounds],
    rules := ReviewRules,
    chainRules := [ReviewLockGate, AuthorNoVerdict],
    frozen := [], unique := [],
    ownerRef := [],
    refs := [(repoId, RepoVis), (patchId, [ById(Patch, [(repoId, Agrees(repoId))])]), (asMember, AsMember)],
    mayDelete := /* keepVerdicts */ NotIn(Prop(verdict), CountedVerdicts))

  const AllKinds: seq<Value> := [Int(1), Int(2), Int(3), Int(4), Int(11), Int(12), Int(13), Int(14), Int(15), Int(16),
                                 Int(17), Int(18), Int(19)]
  const LockKinds: seq<Value> := [Int(3), Int(4), Int(18), Int(19)]
  const StateAfter: Term := Modulo(Ledger(targetId), 16)

  /** The delta each kind carries (b1 to b4) and the conditions that read the document alone. */
  const TransitionLocalRules: seq<Rule> := [
    /* a_kindOfTarget */ Equal(Prop(targetKind), Divide(Prop(kind), 10)),
    /* b1_closeDelta */ IfThen(In(Prop(kind), [Int(1), Int(11), Int(16)]), Equal(Prop(delta), Lit(Int(1)))),
    /* b2_reopenDelta */ IfThen(In(Prop(kind), [Int(2), Int(12), Int(17)]), Equal(Prop(delta), Lit(Int(-1)))),
    /* b3_otherDelta */ IfThen(In(Prop(kind), [Int(13), Int(14), Int(15)]),
                               IfThenElse(Equal(Prop(kind), Lit(Int(13))), Equal(Prop(delta), Lit(Int(2))),
                                          IfThenElse(Equal(Prop(kind), Lit(Int(14))), Equal(Prop(delta), Lit(Int(8))),
                                                     Equal(Prop(delta), Lit(Int(-8)))))),
    /* b4_lockDelta */ IfThen(In(Prop(kind), LockKinds),
                              IfThenElse(In(Prop(kind), [Int(3), Int(18)]), Equal(Prop(delta), Lit(Int(16))),
                                         Equal(Prop(delta), Lit(Int(-16))))),
    /* e_mergeOid */ And(Or(NotEqual(Prop(kind), Lit(Int(13))), Present(oid)),
                         And(IfThen(In(Prop(kind), [Int(13), Int(14), Int(15)]), Equal(Prop(rClaim), Lit(Int(1)))),
                             In(Prop(rClaim), [Int(1), Int(2)]))),
    /* f_authorNoMerge */ Or(Equal(Prop(asAuthor), Lit(Int(0))), NotEqual(Prop(kind), Lit(Int(13)))),
    /* g_memberLock */ Or(Equal(Prop(asAuthor), Lit(Int(0))), NotIn(Prop(kind), LockKinds)),
    /* oidWidth */ OptionalOidRule(oid),
    /* k_kinds */ In(Prop(kind), AllKinds)]

  /** The conditions on the target's sum, the written transition included. */
  const TransitionSumRules: seq<Rule> := [
    /* c1_closedAfter */ IfThen(In(Prop(kind), [Int(1), Int(11)]), Equal(StateAfter, Lit(Int(1)))),
    /* c2_openAfter */ IfThen(In(Prop(kind), [Int(2), Int(12), Int(15)]), Equal(StateAfter, Lit(Int(0)))),
    /* c3_mergedAfter */ IfThen(Equal(Prop(kind), Lit(Int(13))), Equal(StateAfter, Lit(Int(2)))),
    /* c4_draftAfter */ IfThen(In(Prop(kind), [Int(14), Int(17)]), Equal(StateAfter, Lit(Int(8)))),
    /* c5_draftClosedAfter */ IfThen(Equal(Prop(kind), Lit(Int(16))), Equal(StateAfter, Lit(Int(9)))),
    /* c6_lockedAfter */ IfThen(In(Prop(kind), LockKinds),
                                Equal(Divide(Ledger(targetId), 16), Divide(Add(Prop(delta), Lit(Int(16))), 32)))]

  function AuthorLeaf(t: DocType): Leaf {
    Leaf(t, [(ownerId, Own), (repoId, From(repoId)), (number, From(targetNumber))],
         [(docId, Agrees(targetId)), (number, Agrees(asAuthor))])
  }

  function TargetLeaf(t: DocType): Leaf {
    ById(t, [(repoId, Agrees(repoId)), (number, Agrees(targetNumber)), (tk, Agrees(targetKind))])
  }

  const MemberClaimBounds: Rule := Between(rClaim, 1, 2)

  const TransitionSchema := TypeSchema(
    mutable := false, deletable := false,
    required := {repoId, targetId, targetNumber, targetKind, kind, delta, asAuthor, rClaim},
    dependent := [],
    bounds := [Between(delta, -16, 16), Between(targetNumber, 1, U32), Between(asAuthor, 0, U32), MemberClaimBounds,
               In(Prop(kind), AllKinds)],
    rules := TransitionLocalRules,
    chainRules := TransitionSumRules,
    frozen := [], unique := [],
    ownerRef := [Member(Maintainer, []), Member(Writer, [(role, Agrees(rClaim))]), AuthorLeaf(Issue), AuthorLeaf(Patch)],
    refs := [(targetId, [TargetLeaf(Issue), TargetLeaf(Patch)])],
    mayDelete := True)

  // ---- forge-community ----------------------------------------------------------------------

  const RunnerSchema := TypeSchema(
    mutable := false, deletable := true,
    required := {repoId, memberId},
    dependent := [], bounds := [], rules := [], chainRules := [], frozen := [],
    unique := [[repoId, memberId]],
    ownerRef := [],
    refs := [(repoId, [ById(Repo, [(ownerId, Agrees(ownerId))])])],
    mayDelete := True)

  function StatusIs(v: Value): Rule {
    Equal(Prop(status), Lit(v))
  }

  function StatusIsNot(v: Value): Rule {
    NotEqual(Prop(status), Lit(v))
  }

  const WasCompleted: Rule := Equal(OldProp(status), Lit(Completed))

  function SetOnce(f: Field): Frozen {
    Frozen(f, OldPresent(f))
  }

  const CheckRunRules: seq<Rule> := [
    /* conclusionIfDone */ Or(StatusIsNot(Completed), Present(conclusion)),
    /* doneIfConclusion */ Or(StatusIs(Completed), Absent(conclusion)),
    /* startedIfRunning */ Or(StatusIs(Queued), Present(startedAt)),
    /* runningIfStarted */ Or(Absent(startedAt), StatusIsNot(Queued)),
    /* completedAtIfDone */ Or(StatusIsNot(Completed), Present(completedAt)),
    /* doneIfCompletedAt */ Or(Absent(completedAt), StatusIs(Completed)),
    /* doneAfterStart */ Or(Absent(completedAt), AtMost(Prop(startedAt), Prop(completedAt))),
    /* msEpoch */ Or(Absent(startedAt), AtMost(Lit(Int(1000000000000)), Prop(startedAt))),
    /* notFuture */ AtMost(Max(Prop(startedAt), Prop(completedAt)), Add(Prop(updatedAt), Lit(Int(3600000)))),
    OidRule(headOid),
    /* outcomeOf */ IfThenElse(StatusIsNot(Completed), Equal(Prop(outcome), Lit(Int(0))),
                               IfThenElse(In(Prop(conclusion), [Text("success"), Text("neutral"), Text("skipped")]),
                                          Equal(Prop(outcome), Lit(Int(1))), Equal(Prop(outcome), Lit(Int(2))))),
    /* sealedNoText */ Or(And(NotPrivate, Absent(aud)),
                          AllAbsent([summary, detailsUrl, artifacts, externalId])),
    /* rClaim */ Equal(Prop(rClaim), Lit(Int(1)))]

  const CheckRunFrozen: seq<Frozen> := [
    Frozen(repoId, True), Frozen(headOid, True), Frozen(checkName, True), Frozen(vis, True), Frozen(aud, True),
    SetOnce(startedAt), SetOnce(completedAt), SetOnce(conclusion), SetOnce(externalId),
    Frozen(summary, WasCompleted), Frozen(detailsUrl, WasCompleted), Frozen(logUrl, WasCompleted),
    Frozen(logSha256, WasCompleted), Frozen(artifacts, WasCompleted)]

  const CheckRunSchema := TypeSchema(
    mutable := true, deletable := true,
    required := {repoId, headOid, checkName, status, outcome, vis, rClaim},
    dependent := [(logUrl, logSha256), (logSha256, logUrl)],
    bounds := [VisEnum, In(Prop(status), [Queued, InProgress, Completed]), Between(outcome, 0, 2),
               Optionally(aud, Equal(Prop(aud), Lit(Int(1))))],
    rules := CheckRunRules,
    chainRules := [],
    frozen := CheckRunFrozen,
    unique := [],
    ownerRef := [Member(Runner, []), Member(Maintainer, []), Member(Writer, [(role, Agrees(rClaim))])],
    refs := [(repoId, RepoVis)],
    mayDelete := /* keepCompleted */ StatusIsNot(Completed))

  function Forge(t: DocType): TypeSchema {
    match t
    case Repo => RepoSchema
    case Maintainer => MaintainerSchema
    case Writer => WriterSchema
    case Consent => ConsentSchema
    case PushGrant => PushGrantSchema
    case RefUpdate => RefUpdateSchema
    case ProtectedRefUpdate => ProtectedRefUpdateSchema
    case Config => ConfigSchema
    case Release => ReleaseSchema
    case PackManifest => PackManifestSchema
    case Chunk => ChunkSchema
    case Issue => IssueSchema
    case Patch => PatchSchema
    case Comment => CommentSchema
    case Review => ReviewSchema
    case Transition => TransitionSchema
    case Runner => RunnerSchema
    case CheckRun => CheckRunSchema
  }
}
