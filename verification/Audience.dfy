/** Who a document is for. `aud` is present exactly on sealed documents; the author may drop it
    once, which makes the document public, and nothing ever brings it back. */
module Audience {
  import opened Rules
  import opened Chain
  import opened ForgeContracts

  predicate HasAudience(t: DocType) {
    t in {Issue, Patch, Comment}
  }

  /** The plaintext a sealed document cannot carry and its author may add when opening it. */
  function LateFields(t: DocType): set<Field> {
    match t
    case Comment => {path, diffHunk}
    case Patch => {baseRefName, sourceRefName}
    case _ => {}
  }

  /** `aud` was there and is gone. */
  predicate Opened(a: View, b: View) {
    aud in a && aud !in b
  }

  predicate OpensOnce(t: DocType, a: View, b: View) {
    && Get(a, vis) == Get(b, vis)
    && (Get(a, aud) == Get(b, aud) || Opened(a, b))
    && (forall f | f in LateFields(t) :: Get(a, f) == Get(b, f) || (f !in a && f in b && Opened(a, b)))
    && (Get(a, vis) == Some(Private) ==> !Opened(a, b))
  }

  predicate Narrows(a: Doc, b: Doc) {
    HasAudience(a.typ) ==> a.typ == b.typ && (!a.live ==> b == a) && OpensOnce(a.typ, a.view, b.view)
  }

  lemma PrivateIsSealed(rules: seq<Rule>, k: nat, v: View)
    requires Passed(rules, v) && k < |rules| && rules[k] == SealedIfPrivate && Get(v, vis) == Some(Private)
    ensures aud in v && asMember in v
  {
    assert Holds(rules[k], Alone(v));
  }

  lemma AudKept(frozen: seq<Frozen>, k: nat, env: Env)
    requires FreezeKept(frozen, env) && k < |frozen| && frozen[k] == AudFrozen
    ensures Get(env.prev.value, aud) == Get(env.me, aud) || Opened(env.prev.value, env.me)
  {
    assert Holds(AudFrozen.cond, env) ==> Get(env.prev.value, aud) == Get(env.me, aud);
  }

  lemma LateKept(frozen: seq<Frozen>, k: nat, f: Field, env: Env)
    requires FreezeKept(frozen, env) && k < |frozen| && frozen[k] == SettableOnce(f)
    ensures Get(env.prev.value, f) == Get(env.me, f)
            || (f !in env.prev.value && f in env.me && Opened(env.prev.value, env.me))
  {
    assert Holds(SettableOnce(f).cond, env) ==> Get(env.prev.value, f) == Get(env.me, f);
  }

  lemma OutrightKept(frozen: seq<Frozen>, k: nat, f: Field, env: Env)
    requires FreezeKept(frozen, env) && k < |frozen| && frozen[k] == Frozen(f, True)
    ensures Get(env.prev.value, f) == Get(env.me, f)
  {
    assert Holds(frozen[k].cond, env);
  }

  lemma IssueReplace(env: Env)
    requires FreezeKept(IssueFrozen, env) && Passed(IssueRules, env.me)
    ensures OpensOnce(Issue, env.prev.value, env.me)
  {
    OutrightKept(IssueFrozen, 4, vis, env);
    AudKept(IssueFrozen, 8, env);
    if Get(env.me, vis) == Some(Private) { PrivateIsSealed(IssueRules, 2, env.me); }
  }

  lemma PatchReplace(env: Env)
    requires FreezeKept(PatchFrozen, env) && Passed(PatchRules, env.me)
    ensures OpensOnce(Patch, env.prev.value, env.me)
  {
    OutrightKept(PatchFrozen, 8, vis, env);
    AudKept(PatchFrozen, 12, env);
    LateKept(PatchFrozen, 13, baseRefName, env);
    LateKept(PatchFrozen, 14, sourceRefName, env);
    if Get(env.me, vis) == Some(Private) { PrivateIsSealed(PatchRules, 2, env.me); }
  }

  lemma CommentReplace(env: Env)
    requires FreezeKept(CommentFrozen, env) && Passed(CommentRules, env.me)
    ensures OpensOnce(Comment, env.prev.value, env.me)
  {
    OutrightKept(CommentFrozen, 8, vis, env);
    AudKept(CommentFrozen, 12, env);
    LateKept(CommentFrozen, 13, path, env);
    LateKept(CommentFrozen, 14, diffHunk, env);
    if Get(env.me, vis) == Some(Private) { PrivateIsSealed(CommentRules, 2, env.me); }
  }

  predicate AudienceSchemas(C: Contract) {
    && C(Issue).frozen == IssueFrozen && C(Issue).rules == IssueRules
    && C(Patch).frozen == PatchFrozen && C(Patch).rules == PatchRules
    && C(Comment).frozen == CommentFrozen && C(Comment).rules == CommentRules
  }

  lemma ReplaceCase(C: Contract, t: DocType, was: View, me: View, env: Env)
    requires AudienceSchemas(C) && ReplaceStands(C(t), was, me, env)
    ensures Narrows(Doc(t, was, true), Doc(t, me, true))
  {
    match t
    case Issue => IssueReplace(env);
    case Patch => PatchReplace(env);
    case Comment => CommentReplace(env);
    case _ =>
  }

  lemma NarrowsTransitive(a: Doc, b: Doc, c: Doc)
    requires Narrows(a, b) && Narrows(b, c)
    ensures Narrows(a, c)
  {
    if HasAudience(a.typ) {
      forall f | f in LateFields(a.typ)
        ensures Get(a.view, f) == Get(c.view, f) || (f !in a.view && f in c.view && Opened(a.view, c.view))
      {
      }
    }
  }

  lemma ReplaceCases(C: Contract)
    requires AudienceSchemas(C)
    ensures forall t, was, me, env :: ReplaceStands(C(t), was, me, env) ==> Narrows(Doc(t, was, true), Doc(t, me, true))
  {
    forall t, was, me, env | ReplaceStands(C(t), was, me, env) ensures Narrows(Doc(t, was, true), Doc(t, me, true)) {
      ReplaceCase(C, t, was, me, env);
    }
  }

  lemma NarrowsInductive(C: Contract)
    requires AudienceSchemas(C)
    ensures Inductive(C, Narrows)
  {
    forall a, b, c | Narrows(a, b) && Narrows(b, c) ensures Narrows(a, c) { NarrowsTransitive(a, b, c); }
    ReplaceCases(C);
  }

  lemma ForgeAudience()
    ensures AudienceSchemas(Forge)
  {
  }

  /** From any moment of any run to its end: the audience keeps its first value until it is
      dropped and is then absent for good; the late fields change at most once, from absent to
      present, only across the drop; and under `vis` private none of it happens. */
  lemma {:induction false} AudienceOpensOnce(ops: seq<Op>, k: nat, i: nat)
    requires k <= |ops| && i < |Run(Forge, ops[..k]).docs|
    ensures i < |Run(Forge, ops).docs| && Narrows(Run(Forge, ops[..k]).docs[i], Run(Forge, ops).docs[i])
  {
    ForgeAudience();
    NarrowsInductive(Forge);
    OverRun(Forge, Narrows, ops, k, i);
  }
}
