/** A check run's status is never frozen, yet it cannot move back, and a completed run is final. */
module CheckRuns {
  import opened Rules
  import opened Chain
  import opened ForgeContracts

  /** queued, in_progress, completed. */
  function Rank(v: View): int {
    if Get(v, status) == Some(Completed) then 2 else if Get(v, status) == Some(InProgress) then 1 else 0
  }

  const Evidence: set<Field> := {status, conclusion, outcome, startedAt, completedAt, summary, detailsUrl, logUrl, logSha256, artifacts}

  predicate SameEvidence(a: View, b: View) {
    forall f | f in Evidence :: Get(a, f) == Get(b, f)
  }

  /** What becomes of a check run: its rank never falls, and once it is completed its evidence
      stands and it is never deleted. */
  predicate Advances(a: Doc, b: Doc) {
    a.typ == CheckRun ==>
      && b.typ == CheckRun
      && (!a.live ==> b == a)
      && Rank(a.view) <= Rank(b.view)
      && (a.live && Rank(a.view) == 2 ==> b.live && SameEvidence(a.view, b.view))
  }

  lemma StatusKnown(v: View)
    requires Passed(CheckRunSchema.bounds, v)
    ensures status in v && v[status] in {Queued, InProgress, Completed}
  {
    assert CheckRunSchema.bounds[1] == In(Prop(status), [Queued, InProgress, Completed]);
  }

  lemma ConclusionIffDone(v: View)
    requires Passed(CheckRunRules, v)
    ensures conclusion in v <==> Rank(v) == 2
  {
    assert CheckRunRules[0] == Or(StatusIsNot(Completed), Present(conclusion));
    assert CheckRunRules[1] == Or(StatusIs(Completed), Absent(conclusion));
  }

  lemma CompletedAtIffDone(v: View)
    requires Passed(CheckRunRules, v)
    ensures completedAt in v <==> Rank(v) == 2
  {
    assert CheckRunRules[4] == Or(StatusIsNot(Completed), Present(completedAt));
    assert CheckRunRules[5] == Or(Absent(completedAt), StatusIs(Completed));
  }

  lemma StartedIffNotQueued(v: View)
    requires Passed(CheckRunRules, v) && Passed(CheckRunSchema.bounds, v)
    ensures startedAt in v <==> Rank(v) >= 1
  {
    StatusKnown(v);
    assert CheckRunRules[2] == Or(StatusIs(Queued), Present(startedAt));
    assert CheckRunRules[3] == Or(Absent(startedAt), StatusIsNot(Queued));
  }

  function OutcomeOf(v: View): int {
    if Rank(v) < 2 then 0
    else if Get(v, conclusion) in {Some(Text("success")), Some(Text("neutral")), Some(Text("skipped"))} then 1 else 2
  }

  lemma OutcomeFollows(v: View)
    requires Passed(CheckRunRules, v) && Passed(CheckRunSchema.bounds, v) && outcome in v
    ensures v[outcome] == Int(OutcomeOf(v))
  {
    StatusKnown(v);
    assert CheckRunRules[10] ==
      IfThenElse(StatusIsNot(Completed), Equal(Prop(outcome), Lit(Int(0))),
                 IfThenElse(In(Prop(conclusion), [Text("success"), Text("neutral"), Text("skipped")]),
                            Equal(Prop(outcome), Lit(Int(1))), Equal(Prop(outcome), Lit(Int(2)))));
  }

  lemma SetOnceKept(env: Env)
    requires FreezeKept(CheckRunFrozen, env)
    ensures startedAt in env.prev.value ==> Get(env.prev.value, startedAt) == Get(env.me, startedAt)
    ensures completedAt in env.prev.value ==> Get(env.prev.value, completedAt) == Get(env.me, completedAt)
    ensures conclusion in env.prev.value ==> Get(env.prev.value, conclusion) == Get(env.me, conclusion)
  {
    assert CheckRunFrozen[5] == SetOnce(startedAt);
    assert CheckRunFrozen[6] == SetOnce(completedAt);
    assert CheckRunFrozen[7] == SetOnce(conclusion);
  }

  lemma CompletedKept(env: Env, f: Field)
    requires FreezeKept(CheckRunFrozen, env) && Get(env.prev.value, status) == Some(Completed)
    requires f in {summary, detailsUrl, logUrl, logSha256, artifacts}
    ensures Get(env.prev.value, f) == Get(env.me, f)
  {
    var k := if f == summary then 9 else if f == detailsUrl then 10 else if f == logUrl then 11
             else if f == logSha256 then 12 else 13;
    assert CheckRunFrozen[k] == Frozen(f, WasCompleted);
  }

  /** What the rules say about one check run, in plain terms. */
  predicate WellRun(v: View) {
    && Get(v, status) in {Some(Queued), Some(InProgress), Some(Completed)}
    && (conclusion in v <==> Rank(v) == 2)
    && (completedAt in v <==> Rank(v) == 2)
    && (startedAt in v <==> Rank(v) >= 1)
    && Get(v, outcome) == Some(Int(OutcomeOf(v)))
  }

  lemma StandingIsWellRun(v: View)
    requires Standing(CheckRunSchema, v)
    ensures WellRun(v)
  {
    StatusKnown(v);
    ConclusionIffDone(v);
    StartedIffNotQueued(v);
    CompletedAtIffDone(v);
    OutcomeFollows(v);
  }

  predicate FinalFieldsKept(a: View, b: View) {
    && (startedAt in a ==> Get(a, startedAt) == Get(b, startedAt))
    && (completedAt in a ==> Get(a, completedAt) == Get(b, completedAt))
    && (conclusion in a ==> Get(a, conclusion) == Get(b, conclusion))
    && (Rank(a) == 2 ==> forall f | f in {summary, detailsUrl, logUrl, logSha256, artifacts} :: Get(a, f) == Get(b, f))
  }

  lemma FreezeKeepsFinalFields(env: Env)
    requires FreezeKept(CheckRunFrozen, env)
    ensures FinalFieldsKept(env.prev.value, env.me)
  {
    SetOnceKept(env);
    if Rank(env.prev.value) == 2 {
      forall f | f in {summary, detailsUrl, logUrl, logSha256, artifacts} ensures Get(env.prev.value, f) == Get(env.me, f) {
        CompletedKept(env, f);
      }
    }
  }

  lemma FieldsAdvance(a: View, b: View)
    requires WellRun(a) && WellRun(b) && FinalFieldsKept(a, b)
    ensures Advances(Doc(CheckRun, a, true), Doc(CheckRun, b, true))
  {
  }

  lemma ReplaceAdvances(was: View, me: View, env: Env)
    requires ReplaceStands(CheckRunSchema, was, me, env)
    ensures Advances(Doc(CheckRun, was, true), Doc(CheckRun, me, true))
  {
    StandingIsWellRun(was);
    StandingIsWellRun(me);
    FreezeKeepsFinalFields(env);
    FieldsAdvance(was, me);
  }

  lemma DeleteAdvances(v: View, docs: seq<Doc>)
    requires Holds(CheckRunSchema.mayDelete, Env(docs, v, None))
    ensures Rank(v) < 2
  {
  }

  lemma AdvancesTransitive(a: Doc, b: Doc, c: Doc)
    requires Advances(a, b) && Advances(b, c)
    ensures Advances(a, c)
  {
  }

  lemma ReplaceCase(C: Contract, t: DocType, was: View, me: View, env: Env)
    requires C(CheckRun) == CheckRunSchema && ReplaceStands(C(t), was, me, env)
    ensures Advances(Doc(t, was, true), Doc(t, me, true))
  {
    if t == CheckRun { ReplaceAdvances(was, me, env); }
  }

  lemma DeleteCase(C: Contract, t: DocType, v: View, docs: seq<Doc>)
    requires C(CheckRun).mayDelete == CheckRunSchema.mayDelete && DeleteStands(C(t), v, docs)
    ensures Advances(Doc(t, v, true), Doc(t, v, false))
  {
    if t == CheckRun { DeleteAdvances(v, docs); }
  }

  lemma AdvancesInductive(C: Contract)
    requires C(CheckRun) == CheckRunSchema
    ensures Inductive(C, Advances)
  {
    forall a, b, c | Advances(a, b) && Advances(b, c) ensures Advances(a, c) { AdvancesTransitive(a, b, c); }
    forall t, was, me, env | ReplaceStands(C(t), was, me, env) ensures Advances(Doc(t, was, true), Doc(t, me, true)) {
      ReplaceCase(C, t, was, me, env);
    }
    forall t, v, docs | DeleteStands(C(t), v, docs) ensures Advances(Doc(t, v, true), Doc(t, v, false)) {
      DeleteCase(C, t, v, docs);
    }
  }

  /** From any moment of any run to its end, every check run only advances. */
  lemma {:induction false} CheckRunsAdvance(ops: seq<Op>, k: nat, i: nat)
    requires k <= |ops| && i < |Run(Forge, ops[..k]).docs|
    ensures i < |Run(Forge, ops).docs| && Advances(Run(Forge, ops[..k]).docs[i], Run(Forge, ops).docs[i])
  {
    AdvancesInductive(Forge);
    OverRun(Forge, Advances, ops, k, i);
  }
}
