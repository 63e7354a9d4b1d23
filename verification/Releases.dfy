/** The release ledger: for every tag of every repository, publishes and unpublishes alternate. */
module Releases {
  import opened Rules
  import opened Chain
  import opened ForgeContracts
  import opened Totals

  datatype Tag = Tag(repo: Option<Value>, name: Option<Value>)

  function TagOf(v: View): Tag {
    Tag(Get(v, repoId), Get(v, tagName))
  }

  predicate OfTag(d: Doc, tag: Tag) {
    d.live && d.typ == Release && TagOf(d.view) == tag
  }

  function Weight(d: Doc, tag: Tag): int {
    if OfTag(d, tag) then IntOf(d.view, delta) else 0
  }

  /** The sum the rule reads: 1 while the tag has a live release, 0 while it has none. */
  function Sum(docs: seq<Doc>, tag: Tag): int {
    if docs == [] then 0 else Sum(docs[..|docs| - 1], tag) + Weight(docs[|docs| - 1], tag)
  }

  /** The publishes (1) and unpublishes (-1) of a tag, in the order they were written. */
  function Acts(docs: seq<Doc>, tag: Tag): seq<int> {
    if docs == [] then []
    else
      var d := docs[|docs| - 1];
      Acts(docs[..|docs| - 1], tag) + if OfTag(d, tag) && IntOf(d.view, delta) != 0 then [IntOf(d.view, delta)] else []
  }

  /** Publish, unpublish, publish, ... */
  predicate Alternates(acts: seq<int>) {
    forall i | 0 <= i < |acts| :: acts[i] == if i % 2 == 0 then 1 else -1
  }

  /** A tag's books are in order: its acts alternate from a publish, and the sum is 1 after a
      publish and 0 after an unpublish or before the first. */
  predicate InOrder(docs: seq<Doc>, tag: Tag) {
    Alternates(Acts(docs, tag)) && Sum(docs, tag) == |Acts(docs, tag)| % 2
  }

  lemma {:induction false} SumIsTotal(docs: seq<Doc>, me: View)
    ensures SumDocs(docs, Release, delta, me, PerTag) == Sum(docs, TagOf(me))
  {
    if docs != [] {
      SumIsTotal(docs[..|docs| - 1], me);
      assert PerTag[0] == (repoId, repoId) && PerTag[1] == (tagName, tagName);
    }
  }

  lemma {:induction false} Unmoved(a: seq<Doc>, b: seq<Doc>, tag: Tag)
    requires |a| == |b| && forall i | 0 <= i < |a| :: a[i] == b[i] || (a[i].typ != Release && b[i].typ != Release)
    ensures Sum(a, tag) == Sum(b, tag) && Acts(a, tag) == Acts(b, tag)
    decreases |a|
  {
    if a != [] {
      var n := |a| - 1;
      assert a[n] == b[n] || (!OfTag(a[n], tag) && !OfTag(b[n], tag));
      Unmoved(a[..n], b[..n], tag);
    }
  }

  lemma {:induction false} Append(docs: seq<Doc>, d: Doc, tag: Tag)
    ensures Sum(docs + [d], tag) == Sum(docs, tag) + Weight(d, tag)
    ensures Acts(docs + [d], tag)
            == Acts(docs, tag) + if OfTag(d, tag) && IntOf(d.view, delta) != 0 then [IntOf(d.view, delta)] else []
  {
    assert (docs + [d])[..|docs|] == docs;
  }

  /** What the rule admits, in plain terms: a sealed revision moves nothing; a publish needs the
      tag to have no live release, an edit and an unpublish need it to have one. */
  predicate Admitted(sum: int, sealedRevision: bool, change: int) {
    if sealedRevision then change == 0
    else (change == 1 && sum == 0) || (change == 0 && sum == 1) || (change == -1 && sum == 1)
  }

  lemma {:induction false} OneLiveMeans(env: Env, before: int)
    requires delta in env.me && env.me[delta].Int? && -1 <= env.me[delta].n <= 1
    requires SumDocs(env.docs, Release, delta, env.me, PerTag) == before + env.me[delta].n
    ensures Holds(OneLive, env) <==> Admitted(before, enc in env.me, env.me[delta].n)
  {
  }

  lemma DeltaBounds(v: View)
    requires Standing(ReleaseSchema, v)
    ensures delta in v && v[delta].Int? && -1 <= v[delta].n <= 1
  {
    assert delta in ReleaseSchema.required && KindOf(delta) == IntKind;
    assert ReleaseSchema.bounds[1] == Between(delta, -1, 1);
  }

  lemma {:induction false} WriteRuled(docs: seq<Doc>, me: View)
    requires Standing(ReleaseSchema, me)
    ensures ChainRulesHold([OneLive], Env(docs + [Doc(Release, me, true)], me, None))
            <==> Admitted(Sum(docs, TagOf(me)), enc in me, IntOf(me, delta))
  {
    var d := Doc(Release, me, true);
    var env := Env(docs + [d], me, None);
    DeltaBounds(me);
    SumIsTotal(env.docs, me);
    Append(docs, d, TagOf(me));
    OneLiveMeans(env, Sum(docs, TagOf(me)));
    assert [OneLive][0] == OneLive;
  }

  lemma {:induction false} AdmittedKeepsOrder(docs: seq<Doc>, d: Doc, tag: Tag)
    requires InOrder(docs, tag) && OfTag(d, tag)
    requires Admitted(Sum(docs, tag), enc in d.view, IntOf(d.view, delta))
    ensures InOrder(docs + [d], tag)
  {
    Append(docs, d, tag);
  }

  lemma CreateInOrder(s: State, signer: nat, t: DocType, data: View, tag: Tag)
    requires AcceptsCreate(Forge, s, signer, t, data) && InOrder(s.docs, tag)
    ensures InOrder(s.docs + [Doc(t, CreatedView(s, signer, data), true)], tag)
  {
    var me := CreatedView(s, signer, data);
    var d := Doc(t, me, true);
    if OfTag(d, tag) {
      WriteRuled(s.docs, me);
      AdmittedKeepsOrder(s.docs, d, tag);
    } else {
      Append(s.docs, d, tag);
    }
  }

  lemma StepInOrder(s: State, op: Op, tag: Tag)
    requires InOrder(s.docs, tag)
    ensures InOrder(Apply(Forge, s, op).docs, tag)
  {
    StepAppends(Forge, s, op, Release);
    if Accepts(Forge, s, op) && op.Create? {
      CreateInOrder(s, op.signer, op.typ, op.data, tag);
    } else {
      Unmoved(s.docs, Apply(Forge, s, op).docs, tag);
    }
  }

  /** Over every interleaving of writes to all repositories and tags: each tag's publishes and
      unpublishes alternate strictly, starting with a publish, and its sum is 0 or 1. */
  lemma {:induction false} TagsAlternate(ops: seq<Op>, tag: Tag)
    ensures InOrder(Run(Forge, ops).docs, tag)
    ensures Sum(Run(Forge, ops).docs, tag) in {0, 1}
  {
    if ops != [] {
      TagsAlternate(ops[..|ops| - 1], tag);
      StepInOrder(Run(Forge, ops[..|ops| - 1]), ops[|ops| - 1], tag);
    }
  }

  function Unruled(t: DocType): TypeSchema {
    if t == Release then ReleaseSchema.(chainRules := []) else Forge(t)
  }

  /** In every state a release that passes every other check is accepted exactly when the tag's
      live count admits it: a plaintext edit or an unpublish only while the tag is live, a publish
      only while it is not, a sealed revision only if it moves nothing. */
  lemma ReleaseAcceptedIff(s: State, signer: nat, data: View)
    ensures var me := CreatedView(s, signer, data);
            AcceptsCreate(Forge, s, signer, Release, data) <==>
              AcceptsCreate(Unruled, s, signer, Release, data)
              && Admitted(Sum(s.docs, TagOf(me)), enc in me, IntOf(me, delta))
  {
    var me := CreatedView(s, signer, data);
    ChainRulesApart(Forge, Unruled, s, signer, Release, data);
    if AcceptsCreate(Unruled, s, signer, Release, data) {
      UnruledStands(s, signer, data);
      WriteRuled(s.docs, me);
    }
  }

  lemma UnruledStands(s: State, signer: nat, data: View)
    requires AcceptsCreate(Unruled, s, signer, Release, data)
    ensures Standing(ReleaseSchema, CreatedView(s, signer, data))
  {
    assert Standing(Unruled(Release), CreatedView(s, signer, data));
  }
}
