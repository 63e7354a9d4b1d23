/** Pack completeness. A manifest for a pack stored on Platform proves two totals over the pack's
    chunks, how many there are and what their sequence numbers sum to; together with the unique
    index on the number these say that exactly the chunks 0 to n-1 are there. */
module Packs {
  import opened Rules
  import opened Chain
  import opened ForgeContracts
  import opened Totals
  import opened Triangular

  // ---- the chunks of a pack ----------------------------------------------------------------------------

  predicate OfPack(d: Doc, me: View) {
    d.live && d.typ == Chunk && Get(d.view, repoId) == Get(me, repoId) && Get(d.view, ownerId) == Get(me, ownerId)
    && Get(d.view, packHash) == Get(me, packHash)
  }

  /** The sequence numbers of the pack's chunks, in the order they were written. */
  function Numbers(docs: seq<Doc>, me: View): seq<int> {
    if docs == [] then []
    else Numbers(docs[..|docs| - 1], me) + if OfPack(docs[|docs| - 1], me) then [IntOf(docs[|docs| - 1].view, seqNo)] else []
  }

  lemma OfPackIsCounted(d: Doc, me: View)
    ensures OfPack(d, me) <==> Counted(d, Chunk, me, PerPack)
  {
    assert PerPack[0] == (repoId, repoId) && PerPack[1] == (ownerId, ownerId) && PerPack[2] == (packHash, packHash);
  }

  lemma {:induction false} TotalsOfNumbers(docs: seq<Doc>, me: View)
    ensures CountDocs(docs, Chunk, me, PerPack) == |Numbers(docs, me)|
    ensures SumDocs(docs, Chunk, seqNo, me, PerPack) == SumSeq(Numbers(docs, me))
  {
    if docs != [] {
      var front, d := docs[..|docs| - 1], docs[|docs| - 1];
      TotalsOfNumbers(front, me);
      OfPackIsCounted(d, me);
      var x := IntOf(d.view, seqNo);
      if OfPack(d, me) {
        SumConcat(Numbers(front, me), [x]);
        SumOne(x);
        assert Numbers(docs, me) == Numbers(front, me) + [x];
        assert Share(d, Chunk, seqNo, me, PerPack) == x;
      } else {
        assert Numbers(docs, me) == Numbers(front, me);
        assert Share(d, Chunk, seqNo, me, PerPack) == 0;
      }
    }
  }

  predicate HasChunk(docs: seq<Doc>, me: View, x: int) {
    exists i | 0 <= i < |docs| :: OfPack(docs[i], me) && IntOf(docs[i].view, seqNo) == x
  }

  /** Exactly the numbers of the pack's chunks. */
  lemma {:induction false} NumbersAre(docs: seq<Doc>, me: View, x: int)
    ensures x in Numbers(docs, me) <==> HasChunk(docs, me, x)
  {
    if docs != [] {
      var front, d := docs[..|docs| - 1], docs[|docs| - 1];
      NumbersAre(front, me, x);
      if x in Numbers(docs, me) {
        if x in Numbers(front, me) {
          var i :| 0 <= i < |front| && OfPack(front[i], me) && IntOf(front[i].view, seqNo) == x;
          assert docs[i] == front[i];
          assert HasChunk(docs, me, x);
        }
      }
      if HasChunk(docs, me, x) {
        var i :| 0 <= i < |docs| && OfPack(docs[i], me) && IntOf(docs[i].view, seqNo) == x;
        if i < |front| {
          assert front[i] == docs[i];
          assert HasChunk(front, me, x);
        }
      }
    }
  }

  /** No two chunks of a pack bear one number. */
  predicate NumberedApart(docs: seq<Doc>, me: View) {
    forall i, j | 0 <= i < j < |docs| && OfPack(docs[i], me) && OfPack(docs[j], me) ::
      IntOf(docs[i].view, seqNo) != IntOf(docs[j].view, seqNo)
  }

  predicate NumberedFromZero(docs: seq<Doc>, me: View) {
    forall i | 0 <= i < |docs| && OfPack(docs[i], me) :: IntOf(docs[i].view, seqNo) >= 0
  }

  lemma {:induction false} NumbersDistinct(docs: seq<Doc>, me: View)
    requires NumberedApart(docs, me) && NumberedFromZero(docs, me)
    ensures Distinct(Numbers(docs, me)) && Naturals(Numbers(docs, me))
  {
    if docs != [] {
      var front, d := docs[..|docs| - 1], docs[|docs| - 1];
      assert forall i | 0 <= i < |front| :: front[i] == docs[i];
      NumbersDistinct(front, me);
      if OfPack(d, me) {
        NumbersAre(front, me, IntOf(d.view, seqNo));
      }
    }
  }

  lemma ChunkShape(v: View)
    requires Standing(ChunkSchema, v)
    ensures {repoId, ownerId, packHash, seqNo} <= v.Keys && v[seqNo].Int? && v[seqNo].n >= 0
  {
    assert {repoId, packHash, seqNo} <= ChunkSchema.required && KindOf(seqNo) == IntKind;
    assert ChunkSchema.bounds[0] == Between(seqNo, 0, U32);
  }

  lemma ChunkAt(s: State, i: nat)
    requires Sound(Forge, s) && i < |s.docs| && s.docs[i].typ == Chunk
    ensures {repoId, ownerId, packHash, seqNo} <= s.docs[i].view.Keys && s.docs[i].view[seqNo].Int? && s.docs[i].view[seqNo].n >= 0
  {
    assert StoredAt(Forge(Chunk), s.docs[i].view, i, s.now);
    ChunkShape(s.docs[i].view);
  }

  lemma SameNumberSameKey(s: State, me: View, i: nat, j: nat)
    requires Sound(Forge, s) && i < |s.docs| && j < |s.docs| && OfPack(s.docs[i], me) && OfPack(s.docs[j], me)
    requires IntOf(s.docs[i].view, seqNo) == IntOf(s.docs[j].view, seqNo)
    ensures SameKey(s.docs[i].view, s.docs[j].view, [repoId, ownerId, packHash, seqNo])
  {
    ChunkAt(s, i);
    ChunkAt(s, j);
  }

  lemma NumberTaken(s: State, i: nat, j: nat)
    requires Sound(Forge, s) && i < j < |s.docs| && s.docs[i].typ == Chunk && s.docs[j].typ == Chunk && s.docs[i].live && s.docs[j].live
    ensures !SameKey(s.docs[i].view, s.docs[j].view, [repoId, ownerId, packHash, seqNo])
  {
    assert ChunkSchema.unique[0] == [repoId, ownerId, packHash, seqNo];
    assert !SameKey(s.docs[i].view, s.docs[j].view, Forge(s.docs[i].typ).unique[0]);
  }

  lemma ChunksApart(s: State, me: View)
    requires Sound(Forge, s)
    ensures NumberedApart(s.docs, me) && NumberedFromZero(s.docs, me)
  {
    forall i | 0 <= i < |s.docs| && OfPack(s.docs[i], me) ensures IntOf(s.docs[i].view, seqNo) >= 0 {
      ChunkAt(s, i);
    }
    forall i, j | 0 <= i < j < |s.docs| && OfPack(s.docs[i], me) && OfPack(s.docs[j], me)
      ensures IntOf(s.docs[i].view, seqNo) != IntOf(s.docs[j].view, seqNo)
    {
      if IntOf(s.docs[i].view, seqNo) == IntOf(s.docs[j].view, seqNo) {
        SameNumberSameKey(s, me, i, j);
        NumberTaken(s, i, j);
      }
    }
  }

  /** The chunks 0 to n-1 and no others. */
  ghost predicate HasExactly(docs: seq<Doc>, me: View, n: nat) {
    forall x :: (0 <= x < n <==> HasChunk(docs, me, x))
  }

  lemma {:induction false} SameMembers(q: seq<int>, n: nat)
    ensures Elems(q) == Upto(n) <==> forall x :: x in q <==> 0 <= x < n
  {
    if forall x :: x in q <==> 0 <= x < n {
      assert forall x :: x in Elems(q) <==> x in Upto(n);
    } else if Elems(q) == Upto(n) {
      forall x ensures x in q <==> 0 <= x < n {
        assert x in Elems(q) <==> x in Upto(n);
      }
    }
  }

  lemma {:induction false} CompleteIsInitial(docs: seq<Doc>, me: View, n: nat)
    ensures HasExactly(docs, me, n) <==> Elems(Numbers(docs, me)) == Upto(n)
  {
    forall x ensures x in Numbers(docs, me) <==> HasChunk(docs, me, x) {
      NumbersAre(docs, me, x);
    }
    SameMembers(Numbers(docs, me), n);
  }

  const HalfProduct: Term := Divide(Multiply(Prop(chunkCount), Subtract(Prop(chunkCount), Lit(Int(1)))), 2)

  lemma {:induction false} HalfProductIs(env: Env)
    requires chunkCount in env.me && env.me[chunkCount].Int?
    ensures Eval(HalfProduct, env) == Some(Int((env.me[chunkCount].n * (env.me[chunkCount].n - 1)) / 2))
  {
    var n := env.me[chunkCount].n;
    assert Eval(Prop(chunkCount), env) == Some(Int(n));
    assert Eval(Subtract(Prop(chunkCount), Lit(Int(1))), env) == Some(Int(n - 1));
  }

  lemma {:induction false} EqualReads(a: Term, b: Term, env: Env, x: int, y: int)
    requires Eval(a, env) == Some(Int(x)) && Eval(b, env) == Some(Int(y))
    ensures Holds(Equal(a, b), env) <==> x == y
  {
  }

  lemma {:induction false} BothWhen(cond: Rule, a: Rule, b: Rule, env: Env)
    requires Holds(cond, env)
    ensures Holds(IfThen(cond, And(a, b)), env) <==> Holds(a, env) && Holds(b, env)
  {
  }

  lemma {:induction false} PlatformChunksMeans(env: Env, count: int, sum: int)
    requires Get(env.me, storage) == Some(Int(0)) && chunkCount in env.me && env.me[chunkCount].Int?
    requires CountDocs(env.docs, Chunk, env.me, PerPack) == count && SumDocs(env.docs, Chunk, seqNo, env.me, PerPack) == sum
    ensures Holds(PlatformChunks, env) <==>
              count == env.me[chunkCount].n && sum == (env.me[chunkCount].n * (env.me[chunkCount].n - 1)) / 2
  {
    var n := env.me[chunkCount].n;
    HalfProductIs(env);
    EqualReads(CountOf(Chunk, PerPack), Prop(chunkCount), env, count, n);
    EqualReads(SumOf(Chunk, seqNo, PerPack), HalfProduct, env, sum, (n * (n - 1)) / 2);
    BothWhen(Equal(Prop(storage), Lit(Int(0))), Equal(CountOf(Chunk, PerPack), Prop(chunkCount)),
             Equal(SumOf(Chunk, seqNo, PerPack), HalfProduct), env);
  }

  /** For a manifest of a Platform-stored pack, the rule on the two totals holds exactly when the
      log holds the pack's chunks 0 to chunkCount - 1 and no others. */
  lemma RuleSaysComplete(s: State, me: View)
    requires Sound(Forge, s) && Get(me, storage) == Some(Int(0))
    requires chunkCount in me && me[chunkCount].Int? && me[chunkCount].n >= 0
    ensures Holds(PlatformChunks, Env(s.docs + [Doc(PackManifest, me, true)], me, None))
            <==> HasExactly(s.docs, me, me[chunkCount].n)
  {
    var d := Doc(PackManifest, me, true);
    var q := Numbers(s.docs, me);
    CountAppend(s.docs, d, Chunk, me, PerPack);
    SumAppend(s.docs, d, Chunk, seqNo, me, PerPack);
    TotalsOfNumbers(s.docs, me);
    ChunksApart(s, me);
    NumbersDistinct(s.docs, me);
    PlatformChunksMeans(Env(s.docs + [d], me, None), |q|, SumSeq(q));
    TotalsSayInitial(q, me[chunkCount].n);
    CompleteIsInitial(s.docs, me, me[chunkCount].n);
  }

  /** An accepted manifest of a Platform-stored pack: its chunks are all there. */
  lemma {:induction false} AcceptedManifestIsComplete(ops: seq<Op>, signer: nat, data: View)
    requires var s := Run(Forge, ops);
             AcceptsCreate(Forge, s, signer, PackManifest, data) && Get(CreatedView(s, signer, data), storage) == Some(Int(0))
    ensures var s := Run(Forge, ops);
            var me := CreatedView(s, signer, data);
            IntOf(me, chunkCount) >= 0 && HasExactly(s.docs, me, IntOf(me, chunkCount))
  {
    var s := Run(Forge, ops);
    var me := CreatedView(s, signer, data);
    RunSound(Forge, ops);
    ManifestAccepted(s, signer, data);
    RuleSaysComplete(s, me);
  }

  /** A schema whose count is a natural and whose first chain rule is `rule`. */
  predicate AsksForChunks(sch: TypeSchema, rule: Rule) {
    && chunkCount in sch.required && |sch.bounds| > 1 && sch.bounds[1] == Between(chunkCount, 0, U32)
    && |sch.chainRules| > 0 && sch.chainRules[0] == rule
  }

  lemma {:induction false} AcceptedUnder(C: Contract, s: State, signer: nat, t: DocType, data: View, sch: TypeSchema, rule: Rule)
    requires C(t) == sch && AsksForChunks(sch, rule) && AcceptsCreate(C, s, signer, t, data)
    ensures var me := CreatedView(s, signer, data);
            && chunkCount in me && me[chunkCount].Int? && me[chunkCount].n >= 0
            && Holds(rule, Env(s.docs + [Doc(t, me, true)], me, None))
  {
    var me := CreatedView(s, signer, data);
    CreateLeaves(C, s, signer, t, data, sch);
    NaturalCount(sch, me);
    FirstRule(sch.chainRules, rule, Env(s.docs + [Doc(t, me, true)], me, None));
  }

  lemma NaturalCount(sch: TypeSchema, v: View)
    requires Standing(sch, v) && chunkCount in sch.required && |sch.bounds| > 1 && sch.bounds[1] == Between(chunkCount, 0, U32)
    ensures chunkCount in v && v[chunkCount].Int? && v[chunkCount].n >= 0
  {
    RequiredInt(sch, v, chunkCount);
    assert Holds(sch.bounds[1], Alone(v));
  }

  lemma ManifestAsks()
    ensures Forge(PackManifest) == PackManifestSchema && AsksForChunks(PackManifestSchema, PlatformChunks)
  {
  }

  lemma ManifestAccepted(s: State, signer: nat, data: View)
    requires AcceptsCreate(Forge, s, signer, PackManifest, data)
    ensures var me := CreatedView(s, signer, data);
            && chunkCount in me && me[chunkCount].Int? && me[chunkCount].n >= 0
            && Holds(PlatformChunks, Env(s.docs + [Doc(PackManifest, me, true)], me, None))
  {
    ManifestAsks();
    AcceptedUnder(Forge, s, signer, PackManifest, data, PackManifestSchema, PlatformChunks);
  }

  lemma ChunkStays(a: seq<Doc>, b: seq<Doc>, me: View, x: int)
    requires |a| <= |b| && HasChunk(a, me, x)
    requires forall i | 0 <= i < |a| :: Evolves(Forge, a[i], b[i])
    ensures HasChunk(b, me, x)
  {
    var i :| 0 <= i < |a| && OfPack(a[i], me) && IntOf(a[i].view, seqNo) == x;
    assert Evolves(Forge, a[i], b[i]);
    assert !Forge(Chunk).mutable && !Forge(Chunk).deletable;
    assert OfPack(b[i], me);
  }

  /** A pack that was complete when its manifest was accepted can be read for ever after: every
      chunk it counted is still there at the end of the run (others may have joined). */
  lemma {:induction false} PackStaysReadable(ops: seq<Op>, k: nat, x: int)
    requires k < |ops| && ops[k].Create? && ops[k].typ == PackManifest
    requires var s := Run(Forge, ops[..k]);
             && AcceptsCreate(Forge, s, ops[k].signer, PackManifest, ops[k].data)
             && Get(CreatedView(s, ops[k].signer, ops[k].data), storage) == Some(Int(0))
    requires 0 <= x < IntOf(CreatedView(Run(Forge, ops[..k]), ops[k].signer, ops[k].data), chunkCount)
    ensures HasChunk(Run(Forge, ops).docs, CreatedView(Run(Forge, ops[..k]), ops[k].signer, ops[k].data), x)
  {
    AcceptedManifestIsComplete(ops[..k], ops[k].signer, ops[k].data);
    RunGrows(Forge, ops, k);
    ChunkStays(Run(Forge, ops[..k]).docs, Run(Forge, ops).docs,
               CreatedView(Run(Forge, ops[..k]), ops[k].signer, ops[k].data), x);
  }
}
