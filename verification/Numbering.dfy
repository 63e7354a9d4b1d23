/** Issues and pull requests of a repository share one sequence of numbers without gaps. */
module Numbering {
  import opened Rules
  import opened Chain
  import opened ForgeContracts
  import opened Totals

  predicate ItemOf(d: Doc, repo: Option<Value>) {
    d.live && d.typ in {Issue, Patch} && Get(d.view, repoId) == repo
  }

  /** The numbers of a repository's issues and pull requests, in the order they were opened. */
  function NumbersOf(docs: seq<Doc>, repo: Option<Value>): seq<int> {
    if docs == [] then []
    else
      NumbersOf(docs[..|docs| - 1], repo)
      + if ItemOf(docs[|docs| - 1], repo) then [IntOf(docs[|docs| - 1].view, number)] else []
  }

  predicate CountsUp(q: seq<int>) {
    forall i | 0 <= i < |q| :: q[i] == i + 1
  }

  lemma CountedInRepo(d: Doc, t: DocType, me: View)
    ensures Counted(d, t, me, PerRepo) <==> d.live && d.typ == t && Get(d.view, repoId) == Get(me, repoId)
  {
    assert PerRepo[0] == (repoId, repoId);
  }

  lemma {:induction false} CountsAreItems(docs: seq<Doc>, me: View)
    ensures CountDocs(docs, Issue, me, PerRepo) + CountDocs(docs, Patch, me, PerRepo) == |NumbersOf(docs, Get(me, repoId))|
  {
    if docs != [] {
      CountsAreItems(docs[..|docs| - 1], me);
      CountedInRepo(docs[|docs| - 1], Issue, me);
      CountedInRepo(docs[|docs| - 1], Patch, me);
    }
  }

  lemma {:induction false} Append(docs: seq<Doc>, d: Doc, repo: Option<Value>)
    ensures NumbersOf(docs + [d], repo) == NumbersOf(docs, repo) + if ItemOf(d, repo) then [IntOf(d.view, number)] else []
  {
    assert (docs + [d])[..|docs|] == docs;
  }

  /** As far as numbering can tell, the same document. */
  predicate SameItem(a: Doc, b: Doc) {
    && (a.typ in {Issue, Patch} <==> b.typ in {Issue, Patch})
    && (a.typ in {Issue, Patch} ==>
          a.live == b.live && Get(a.view, repoId) == Get(b.view, repoId) && Get(a.view, number) == Get(b.view, number))
  }

  lemma {:induction false} Unmoved(a: seq<Doc>, b: seq<Doc>, repo: Option<Value>)
    requires |a| == |b| && forall i | 0 <= i < |a| :: SameItem(a[i], b[i])
    ensures NumbersOf(a, repo) == NumbersOf(b, repo)
    decreases |a|
  {
    if a != [] {
      var n := |a| - 1;
      assert SameItem(a[n], b[n]);
      Unmoved(a[..n], b[..n], repo);
    }
  }

  lemma ItemsKeepNumbers(a: Doc, b: Doc)
    requires Evolves(Forge, a, b)
    ensures a.typ in {Issue, Patch} && a.live ==> SameItem(a, b)
    ensures !a.live || a.typ !in {Issue, Patch} ==> SameItem(a, b)
  {
    if a.typ == Issue {
      assert IssueFrozen[0] == Frozen(repoId, True) && IssueFrozen[1] == Frozen(number, True);
      assert FrozenOutright(Forge(Issue), repoId) && FrozenOutright(Forge(Issue), number);
    } else if a.typ == Patch {
      assert PatchFrozen[0] == Frozen(repoId, True) && PatchFrozen[1] == Frozen(number, True);
      assert FrozenOutright(Forge(Patch), repoId) && FrozenOutright(Forge(Patch), number);
    }
  }

  lemma {:induction false} DenseMeans(env: Env, n: int)
    requires Get(env.me, revision) == Some(Int(1)) && number in env.me && env.me[number].Int?
    requires CountDocs(env.docs, Issue, env.me, PerRepo) + CountDocs(env.docs, Patch, env.me, PerRepo) == n
    requires Holds(Dense, env)
    ensures env.me[number].n == n
  {
  }

  predicate Numbered(sch: TypeSchema) {
    number in sch.required && sch.chainRules == [Dense]
  }

  lemma ItemsAreNumbered()
    ensures Numbered(Forge(Issue)) && Numbered(Forge(Patch))
  {
  }

  lemma ItemFacts(C: Contract, s: State, signer: nat, t: DocType, data: View, sch: TypeSchema)
    requires C(t) == sch && Numbered(sch)
    requires AcceptsCreate(C, s, signer, t, data)
    ensures var me := CreatedView(s, signer, data);
            && number in me && me[number].Int? && Get(me, revision) == Some(Int(1))
            && Holds(Dense, Env(s.docs + [Doc(t, me, true)], me, None))
  {
    var me := CreatedView(s, signer, data);
    CreateLeaves(C, s, signer, t, data, sch);
    RequiredInt(sch, me, number);
    FirstRule(sch.chainRules, Dense, Env(s.docs + [Doc(t, me, true)], me, None));
  }

  /** The document that passes `Dense` bears the next number. */
  lemma {:induction false} NextNumber(docs: seq<Doc>, d: Doc, repo: Option<Value>)
    requires CountsUp(NumbersOf(docs, repo)) && ItemOf(d, repo)
    requires number in d.view && d.view[number].Int? && Get(d.view, revision) == Some(Int(1))
    requires Holds(Dense, Env(docs + [d], d.view, None))
    ensures CountsUp(NumbersOf(docs + [d], repo))
  {
    Append(docs, d, repo);
    CountsAreItems(docs + [d], d.view);
    DenseMeans(Env(docs + [d], d.view, None), |NumbersOf(docs, repo)| + 1);
  }

  lemma {:induction false} CreateCountsUp(C: Contract, s: State, signer: nat, t: DocType, data: View, repo: Option<Value>)
    requires Numbered(C(Issue)) && Numbered(C(Patch))
    requires AcceptsCreate(C, s, signer, t, data) && CountsUp(NumbersOf(s.docs, repo))
    ensures CountsUp(NumbersOf(s.docs + [Doc(t, CreatedView(s, signer, data), true)], repo))
  {
    var d := Doc(t, CreatedView(s, signer, data), true);
    if ItemOf(d, repo) {
      ItemFacts(C, s, signer, t, data, C(t));
      NextNumber(s.docs, d, repo);
    } else {
      Append(s.docs, d, repo);
    }
  }

  lemma SameLength(C: Contract, s: State, op: Op)
    requires !(Accepts(C, s, op) && op.Create?)
    ensures |Apply(C, s, op).docs| == |s.docs|
  {
  }

  lemma {:induction false} EvolvedUnmoved(a: seq<Doc>, b: seq<Doc>, repo: Option<Value>)
    requires |a| == |b| && forall i | 0 <= i < |a| :: Evolves(Forge, a[i], b[i])
    ensures NumbersOf(a, repo) == NumbersOf(b, repo)
  {
    forall i | 0 <= i < |a| ensures SameItem(a[i], b[i]) {
      ItemsKeepNumbers(a[i], b[i]);
    }
    Unmoved(a, b, repo);
  }

  lemma {:induction false} StepCountsUp(s: State, op: Op, repo: Option<Value>)
    requires Sound(Forge, s) && CountsUp(NumbersOf(s.docs, repo))
    ensures CountsUp(NumbersOf(Apply(Forge, s, op).docs, repo))
  {
    if Accepts(Forge, s, op) && op.Create? {
      ItemsAreNumbered();
      CreateCountsUp(Forge, s, op.signer, op.typ, op.data, repo);
    } else {
      SameLength(Forge, s, op);
      StepGrows(Forge, s, op);
      EvolvedUnmoved(s.docs, Apply(Forge, s, op).docs, repo);
    }
  }

  /** In every reachable state the issues and pull requests of a repository, in the order they
      were opened, bear the numbers 1, 2, 3, ... */
  lemma {:induction false} NumbersCountUp(ops: seq<Op>, repo: Option<Value>)
    ensures CountsUp(NumbersOf(Run(Forge, ops).docs, repo))
  {
    if ops != [] {
      NumbersCountUp(ops[..|ops| - 1], repo);
      RunSound(Forge, ops[..|ops| - 1]);
      StepCountsUp(Run(Forge, ops[..|ops| - 1]), ops[|ops| - 1], repo);
    }
  }
}
