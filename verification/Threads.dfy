/** The transition ledger. A thread's state is nowhere stored: it is the sum of the deltas of the
    transitions written for it. Here that sum is shown to be the code of a plain machine with five
    phases and a lock, whose moves are exactly the transitions the chain accepts. */
module Threads {
  import opened Rules
  import opened Chain
  import opened ForgeContracts
  import opened Totals

  // ---- the plain machine ------------------------------------------------------------------------

  datatype Phase = Open | Closed | Merged | Draft | DraftClosed

  datatype Thread = Thread(phase: Phase, locked: bool)

  const Fresh: Thread := Thread(Open, false)

  /** The move a transition kind makes, if the thread admits it. */
  function Move(th: Thread, k: int): Option<Thread> {
    if k in {1, 11} then (if th.phase == Open then Some(th.(phase := Closed)) else None)
    else if k in {2, 12} then (if th.phase == Closed then Some(th.(phase := Open)) else None)
    else if k == 13 then (if th.phase == Open then Some(th.(phase := Merged)) else None)
    else if k == 14 then (if th.phase == Open then Some(th.(phase := Draft)) else None)
    else if k == 15 then (if th.phase == Draft then Some(th.(phase := Open)) else None)
    else if k == 16 then (if th.phase == Draft then Some(th.(phase := DraftClosed)) else None)
    else if k == 17 then (if th.phase == DraftClosed then Some(th.(phase := Draft)) else None)
    else if k in {3, 18} then (if !th.locked then Some(th.(locked := true)) else None)
    else if k in {4, 19} then (if th.locked then Some(th.(locked := false)) else None)
    else None
  }

  function Code(p: Phase): int {
    match p
    case Open => 0
    case Closed => 1
    case Merged => 2
    case Draft => 8
    case DraftClosed => 9
  }

  function Encode(th: Thread): int {
    Code(th.phase) + if th.locked then 16 else 0
  }

  // ---- the ledger -------------------------------------------------------------------------------

  predicate Concerns(d: Doc, target: Option<Value>) {
    d.live && d.typ == Transition && Get(d.view, targetId) == target
  }

  function Weight(d: Doc, target: Option<Value>): int {
    if Concerns(d, target) then IntOf(d.view, delta) else 0
  }

  function Sum(docs: seq<Doc>, target: Option<Value>): int {
    if docs == [] then 0
    else Sum(docs[..|docs| - 1], target) + Weight(docs[|docs| - 1], target)
  }

  /** The plain machine's run over the transitions of a target, in the order they were written;
      `None` once a transition was not a move. */
  function Replay(docs: seq<Doc>, target: Option<Value>): Option<Thread> {
    if docs == [] then Some(Fresh)
    else
      var before := Replay(docs[..|docs| - 1], target);
      var d := docs[|docs| - 1];
      if before.None? then None
      else if Concerns(d, target) then Move(before.value, IntOf(d.view, kind))
      else before
  }

  lemma {:induction false} SumIsTotal(docs: seq<Doc>, me: View, f: Field)
    ensures SumDocs(docs, Transition, delta, me, [(targetId, f)]) == Sum(docs, Get(me, f))
  {
    if docs != [] {
      SumIsTotal(docs[..|docs| - 1], me, f);
      var keys := [(targetId, f)];
      assert keys[0] == (targetId, f);
    }
  }

  // ---- what the rules say of one transition ------------------------------------------------------

  predicate KnownKind(k: int) {
    k in {1, 2, 3, 4, 11, 12, 13, 14, 15, 16, 17, 18, 19}
  }

  function DeltaOf(k: int): int {
    if k in {1, 11, 16} then 1
    else if k in {2, 12, 17} then -1
    else if k == 13 then 2
    else if k == 14 then 8
    else if k == 15 then -8
    else if k in {3, 18} then 16
    else -16
  }

  lemma KindKnown(v: View)
    requires kind in v && v[kind].Int? && Holds(In(Prop(kind), AllKinds), Alone(v))
    ensures KnownKind(v[kind].n)
  {
  }

  lemma CloseAndReopenDelta(v: View)
    requires Passed(TransitionLocalRules, v) && kind in v && v[kind].Int?
    ensures v[kind].n in {1, 11, 16} ==> IntOf(v, delta) == 1
    ensures v[kind].n in {2, 12, 17} ==> IntOf(v, delta) == -1
  {
    assert TransitionLocalRules[1] == IfThen(In(Prop(kind), [Int(1), Int(11), Int(16)]), Equal(Prop(delta), Lit(Int(1))));
    assert TransitionLocalRules[2] == IfThen(In(Prop(kind), [Int(2), Int(12), Int(17)]), Equal(Prop(delta), Lit(Int(-1))));
  }

  const MergeOrDraftDelta: Rule := IfThenElse(Equal(Prop(kind), Lit(Int(13))), Equal(Prop(delta), Lit(Int(2))),
    IfThenElse(Equal(Prop(kind), Lit(Int(14))), Equal(Prop(delta), Lit(Int(8))), Equal(Prop(delta), Lit(Int(-8)))))

  lemma MergeOrDraft(v: View)
    requires kind in v && v[kind].Int? && v[kind].n in {13, 14, 15} && Holds(MergeOrDraftDelta, Alone(v))
    ensures IntOf(v, delta) == DeltaOf(v[kind].n)
  {
  }

  lemma OtherDelta(v: View)
    requires Passed(TransitionLocalRules, v) && kind in v && v[kind].Int?
    ensures v[kind].n in {13, 14, 15} ==> IntOf(v, delta) == DeltaOf(v[kind].n)
  {
    if v[kind].n in {13, 14, 15} {
      assert TransitionLocalRules[3] == IfThen(In(Prop(kind), [Int(13), Int(14), Int(15)]), MergeOrDraftDelta);
      MergeOrDraft(v);
    }
  }

  lemma LockDelta(v: View)
    requires Passed(TransitionLocalRules, v) && kind in v && v[kind].Int?
    ensures v[kind].n in {3, 18} ==> IntOf(v, delta) == 16
    ensures v[kind].n in {4, 19} ==> IntOf(v, delta) == -16
  {
    assert TransitionLocalRules[4] == IfThen(In(Prop(kind), LockKinds),
      IfThenElse(In(Prop(kind), [Int(3), Int(18)]), Equal(Prop(delta), Lit(Int(16))), Equal(Prop(delta), Lit(Int(-16)))));
  }

  /** A stored transition has a known kind and that kind's delta. */
  predicate Charged(v: View) {
    kind in v && v[kind].Int? && KnownKind(v[kind].n) && IntOf(v, delta) == DeltaOf(v[kind].n)
  }

  lemma RulesCharge(v: View)
    requires Passed(TransitionLocalRules, v) && kind in v && v[kind].Int? && KnownKind(v[kind].n)
    ensures Charged(v)
  {
    CloseAndReopenDelta(v);
    OtherDelta(v);
    LockDelta(v);
  }

  lemma KindsBounded(sch: TypeSchema, v: View, k: nat)
    requires Standing(sch, v) && k < |sch.bounds| && kind in sch.required && sch.bounds[k] == In(Prop(kind), AllKinds)
    ensures kind in v && v[kind].Int? && Holds(In(Prop(kind), AllKinds), Alone(v))
  {
    RequiredInt(sch, v, kind);
  }

  lemma ChargedUnder(sch: TypeSchema, v: View, k: nat)
    requires Standing(sch, v) && k < |sch.bounds| && kind in sch.required && sch.bounds[k] == In(Prop(kind), AllKinds)
    requires sch.rules == TransitionLocalRules
    ensures Charged(v)
  {
    KindsBounded(sch, v, k);
    KindKnown(v);
    RulesCharge(v);
  }

  lemma StandingIsCharged(v: View)
    requires Standing(TransitionSchema, v)
    ensures Charged(v)
  {
    ChargedUnder(TransitionSchema, v, 4);
  }

  /** The six rules on the sum after the write, in plain terms. */
  predicate SumAllows(k: int, after: int) {
    && (k in {1, 11} ==> after % 16 == 1)
    && (k in {2, 12, 15} ==> after % 16 == 0)
    && (k == 13 ==> after % 16 == 2)
    && (k in {14, 17} ==> after % 16 == 8)
    && (k == 16 ==> after % 16 == 9)
    && (k in {3, 4, 18, 19} ==> after / 16 == (DeltaOf(k) + 16) / 32)
  }

  lemma {:induction false} AfterRuleMeans(env: Env, kinds: seq<Value>, code: int, k: int, after: int)
    requires Get(env.me, kind) == Some(Int(k))
    requires SumDocs(env.docs, Transition, delta, env.me, [(targetId, targetId)]) == after
    ensures Holds(IfThen(In(Prop(kind), kinds), Equal(StateAfter, Lit(Int(code)))), env)
            <==> (Int(k) in kinds ==> after % 16 == code)
  {
    assert Eval(Prop(kind), env) == Some(Int(k));
    assert Eval(StateAfter, env) == Some(Int(after % 16));
    assert Holds(In(Prop(kind), kinds), env) <==> Int(k) in kinds;
    assert Holds(Equal(StateAfter, Lit(Int(code))), env) <==> after % 16 == code;
  }

  lemma {:induction false} AfterOneRuleMeans(env: Env, only: int, code: int, k: int, after: int)
    requires Get(env.me, kind) == Some(Int(k))
    requires SumDocs(env.docs, Transition, delta, env.me, [(targetId, targetId)]) == after
    ensures Holds(IfThen(Equal(Prop(kind), Lit(Int(only))), Equal(StateAfter, Lit(Int(code)))), env)
            <==> (k == only ==> after % 16 == code)
  {
    assert Eval(Prop(kind), env) == Some(Int(k));
    assert Eval(StateAfter, env) == Some(Int(after % 16));
    assert Holds(Equal(Prop(kind), Lit(Int(only))), env) <==> k == only;
    assert Holds(Equal(StateAfter, Lit(Int(code))), env) <==> after % 16 == code;
  }

  lemma {:induction false} StateRulesMean(env: Env, k: int, after: int)
    requires Get(env.me, kind) == Some(Int(k))
    requires SumDocs(env.docs, Transition, delta, env.me, [(targetId, targetId)]) == after
    ensures Holds(TransitionSumRules[0], env) <==> (k in {1, 11} ==> after % 16 == 1)
    ensures Holds(TransitionSumRules[1], env) <==> (k in {2, 12, 15} ==> after % 16 == 0)
    ensures Holds(TransitionSumRules[2], env) <==> (k == 13 ==> after % 16 == 2)
    ensures Holds(TransitionSumRules[3], env) <==> (k in {14, 17} ==> after % 16 == 8)
    ensures Holds(TransitionSumRules[4], env) <==> (k == 16 ==> after % 16 == 9)
  {
    AfterRuleMeans(env, [Int(1), Int(11)], 1, k, after);
    AfterRuleMeans(env, [Int(2), Int(12), Int(15)], 0, k, after);
    AfterOneRuleMeans(env, 13, 2, k, after);
    AfterRuleMeans(env, [Int(14), Int(17)], 8, k, after);
    AfterOneRuleMeans(env, 16, 9, k, after);
  }

  lemma {:induction false} LockSides(env: Env, k: int, after: int)
    requires Get(env.me, delta) == Some(Int(DeltaOf(k)))
    requires SumDocs(env.docs, Transition, delta, env.me, [(targetId, targetId)]) == after
    ensures Holds(Equal(Divide(Ledger(targetId), 16), Divide(Add(Prop(delta), Lit(Int(16))), 32)), env)
            <==> after / 16 == (DeltaOf(k) + 16) / 32
  {
  }

  lemma {:induction false} LockRuleMeans(env: Env, k: int, after: int)
    requires Get(env.me, kind) == Some(Int(k)) && Get(env.me, delta) == Some(Int(DeltaOf(k)))
    requires SumDocs(env.docs, Transition, delta, env.me, [(targetId, targetId)]) == after
    ensures Holds(TransitionSumRules[5], env) <==> (k in {3, 4, 18, 19} ==> after / 16 == (DeltaOf(k) + 16) / 32)
  {
    var sides := Equal(Divide(Ledger(targetId), 16), Divide(Add(Prop(delta), Lit(Int(16))), 32));
    assert TransitionSumRules[5] == IfThen(In(Prop(kind), LockKinds), sides);
    LockSides(env, k, after);
    assert Holds(In(Prop(kind), LockKinds), env) <==> k in {3, 4, 18, 19};
  }

  lemma SumRulesMean(env: Env, k: int, after: int)
    requires Get(env.me, kind) == Some(Int(k)) && Get(env.me, delta) == Some(Int(DeltaOf(k)))
    requires SumDocs(env.docs, Transition, delta, env.me, [(targetId, targetId)]) == after
    ensures ChainRulesHold(TransitionSumRules, env) <==> SumAllows(k, after)
  {
    StateRulesMean(env, k, after);
    LockRuleMeans(env, k, after);
    assert |TransitionSumRules| == 6;
  }

  /** From the code of a thread, the rules on the sum admit exactly the machine's moves, and the
      sum they leave is the code of where the move goes. */
  lemma SumAllowsMoves(th: Thread, k: int)
    requires KnownKind(k)
    ensures SumAllows(k, Encode(th) + DeltaOf(k)) <==> Move(th, k).Some?
    ensures Move(th, k).Some? ==> Encode(Move(th, k).value) == Encode(th) + DeltaOf(k)
  {
  }

  // ---- the ledger and the machine move together ----------------------------------------------------

  /** The target's transitions replay to a thread, and their sum is its code. */
  predicate Booked(docs: seq<Doc>, target: Option<Value>) {
    Replay(docs, target).Some? && Sum(docs, target) == Encode(Replay(docs, target).value)
  }

  lemma {:induction false} LedgerUnmoved(a: seq<Doc>, b: seq<Doc>, target: Option<Value>)
    requires |a| == |b| && forall i | 0 <= i < |a| :: a[i] == b[i] || (a[i].typ != Transition && b[i].typ != Transition)
    ensures Sum(a, target) == Sum(b, target) && Replay(a, target) == Replay(b, target)
    decreases |a|
  {
    if a != [] {
      var n := |a| - 1;
      assert a[n] == b[n] || (!Concerns(a[n], target) && !Concerns(b[n], target));
      LedgerUnmoved(a[..n], b[..n], target);
    }
  }

  lemma {:induction false} LedgerAppend(docs: seq<Doc>, d: Doc, target: Option<Value>)
    ensures Sum(docs + [d], target) == Sum(docs, target) + Weight(d, target)
    ensures Replay(docs + [d], target) == if Replay(docs, target).None? then None
                                          else if Concerns(d, target) then Move(Replay(docs, target).value, IntOf(d.view, kind))
                                          else Replay(docs, target)
  {
    assert (docs + [d])[..|docs|] == docs;
  }

  /** For a transition that passes everything else, the six sum rules say that it is a move. */
  lemma {:induction false} SumRulesSayMove(docs: seq<Doc>, me: View)
    requires Charged(me) && delta in me && WellKinded(me) && Booked(docs, Get(me, targetId))
    ensures ChainRulesHold(TransitionSumRules, Env(docs + [Doc(Transition, me, true)], me, None))
            <==> Move(Replay(docs, Get(me, targetId)).value, IntOf(me, kind)).Some?
  {
    var d := Doc(Transition, me, true);
    var env := Env(docs + [d], me, None);
    var target := Get(me, targetId);
    SumIsTotal(env.docs, me, targetId);
    LedgerAppend(docs, d, target);
    assert KindOf(delta) == IntKind;
    assert Get(me, delta) == Some(Int(DeltaOf(me[kind].n)));
    SumRulesMean(env, me[kind].n, Sum(env.docs, target));
    SumAllowsMoves(Replay(docs, target).value, me[kind].n);
  }

  lemma CreateBooked(s: State, signer: nat, t: DocType, data: View, target: Option<Value>)
    requires AcceptsCreate(Forge, s, signer, t, data) && Booked(s.docs, target)
    ensures Booked(s.docs + [Doc(t, CreatedView(s, signer, data), true)], target)
  {
    var me := CreatedView(s, signer, data);
    LedgerAppend(s.docs, Doc(t, me, true), target);
    if t == Transition && Get(me, targetId) == target {
      assert Forge(t) == TransitionSchema;
      TransitionWritten(s, signer, data);
      SumAllowsMoves(Replay(s.docs, target).value, me[kind].n);
    }
  }

  lemma TransitionWritten(s: State, signer: nat, data: View)
    requires AcceptsCreate(Forge, s, signer, Transition, data)
    requires Booked(s.docs, Get(CreatedView(s, signer, data), targetId))
    ensures var me := CreatedView(s, signer, data);
            Charged(me) && Move(Replay(s.docs, Get(me, targetId)).value, IntOf(me, kind)).Some?
  {
    var me := CreatedView(s, signer, data);
    StandingIsCharged(me);
    assert delta in TransitionSchema.required;
    SumRulesSayMove(s.docs, me);
  }

  lemma StepBooked(s: State, op: Op, target: Option<Value>)
    requires Booked(s.docs, target)
    ensures Booked(Apply(Forge, s, op).docs, target)
  {
    var after := Apply(Forge, s, op).docs;
    StepAppends(Forge, s, op, Transition);
    if Accepts(Forge, s, op) && op.Create? {
      CreateBooked(s, op.signer, op.typ, op.data, target);
    } else {
      LedgerUnmoved(s.docs, after, target);
    }
  }

  lemma {:induction false} RunBooked(ops: seq<Op>, target: Option<Value>)
    ensures Booked(Run(Forge, ops).docs, target)
  {
    if ops != [] {
      RunBooked(ops[..|ops| - 1], target);
      StepBooked(Run(Forge, ops[..|ops| - 1]), ops[|ops| - 1], target);
    }
  }

  /** The state of a thread in a reachable state of the chain. */
  function ThreadAt(ops: seq<Op>, target: Option<Value>): Thread {
    var r := Replay(Run(Forge, ops).docs, target);
    if r.Some? then r.value else Fresh
  }

  // ---- the theorems ---------------------------------------------------------------------------------

  lemma CodeFacts(th: Thread)
    ensures Encode(th) % 16 == Code(th.phase) && Encode(th) % 16 in {0, 1, 2, 8, 9}
    ensures Encode(th) / 16 == if th.locked then 1 else 0
    ensures Encode(th) >= 16 <==> th.locked
  {
  }

  /** Over every run: the sum the rules read is the code of the thread, so it is one of 0, 1, 2, 8
      and 9, plus 16 exactly when the thread is locked. */
  lemma {:induction false} SumIsThreadCode(ops: seq<Op>, target: Option<Value>)
    ensures Replay(Run(Forge, ops).docs, target) == Some(ThreadAt(ops, target))
    ensures Sum(Run(Forge, ops).docs, target) == Encode(ThreadAt(ops, target))
    ensures Sum(Run(Forge, ops).docs, target) % 16 in {0, 1, 2, 8, 9}
    ensures Sum(Run(Forge, ops).docs, target) >= 16 <==> ThreadAt(ops, target).locked
  {
    RunBooked(ops, target);
    CodeFacts(ThreadAt(ops, target));
  }

  /** The contract without the six rules on the sum. */
  function Unledgered(t: DocType): TypeSchema {
    if t == Transition then TransitionSchema.(chainRules := []) else Forge(t)
  }

  /** In every reachable state, a transition that passes every other check is accepted exactly
      when it is a move of the plain machine from the thread's state; and it makes that move. */
  lemma {:induction false} AcceptedIffMove(ops: seq<Op>, signer: nat, data: View)
    ensures var s := Run(Forge, ops);
            var me := CreatedView(s, signer, data);
            AcceptsCreate(Forge, s, signer, Transition, data) <==>
              AcceptsCreate(Unledgered, s, signer, Transition, data)
              && Move(ThreadAt(ops, Get(me, targetId)), IntOf(me, kind)).Some?
  {
    var s := Run(Forge, ops);
    var me := CreatedView(s, signer, data);
    RunBooked(ops, Get(me, targetId));
    ChainRulesApart(Forge, Unledgered, s, signer, Transition, data);
    if AcceptsCreate(Unledgered, s, signer, Transition, data) {
      OtherwiseAdmissible(s, signer, data);
      SumRulesSayMove(s.docs, me);
    }
  }

  lemma OtherwiseAdmissible(s: State, signer: nat, data: View)
    requires AcceptsCreate(Unledgered, s, signer, Transition, data)
    ensures var me := CreatedView(s, signer, data); Charged(me) && delta in me && WellKinded(me)
  {
    var me := CreatedView(s, signer, data);
    assert Standing(Unledgered(Transition), me);
    assert Standing(TransitionSchema, me);
    assert delta in TransitionSchema.required;
    StandingIsCharged(me);
  }

  /** An accepted transition leaves its thread where the plain machine's move goes. */
  lemma {:induction false} MoveHappens(ops: seq<Op>, signer: nat, data: View)
    requires AcceptsCreate(Forge, Run(Forge, ops), signer, Transition, data)
    ensures var me := CreatedView(Run(Forge, ops), signer, data);
            var target := Get(me, targetId);
            Move(ThreadAt(ops, target), IntOf(me, kind)) == Some(ThreadAt(ops + [Create(signer, Transition, data)], target))
  {
    var s := Run(Forge, ops);
    var me := CreatedView(s, signer, data);
    var target := Get(me, targetId);
    var op := Create(signer, Transition, data);
    assert (ops + [op])[..|ops|] == ops;
    assert Run(Forge, ops + [op]) == Apply(Forge, s, op);
    RunBooked(ops, target);
    RunBooked(ops + [op], target);
    LedgerAppend(s.docs, Doc(Transition, me, true), target);
  }

  /** A thread merged at any moment of a run stays merged: only its lock still moves. */
  lemma {:induction false} MergedForEver(ops: seq<Op>, k: nat, target: Option<Value>)
    requires k <= |ops| && ThreadAt(ops[..k], target).phase == Merged
    ensures ThreadAt(ops, target).phase == Merged
  {
    if k == |ops| {
      assert ops[..k] == ops;
    } else {
      var front := ops[..|ops| - 1];
      assert front[..k] == ops[..k];
      MergedForEver(front, k, target);
      RunBooked(front, target);
      RunBooked(ops, target);
      MergedStays(Run(Forge, front), ops[|ops| - 1], target);
    }
  }

  lemma NoMoveLeavesMerged(th: Thread, k: int)
    requires th.phase == Merged && Move(th, k).Some?
    ensures Move(th, k).value.phase == Merged
  {
  }

  lemma {:induction false} MergedStays(s: State, op: Op, target: Option<Value>)
    requires Booked(s.docs, target) && Replay(s.docs, target).value.phase == Merged
    requires Replay(Apply(Forge, s, op).docs, target).Some?
    ensures Replay(Apply(Forge, s, op).docs, target).value.phase == Merged
  {
    StepMoves(s, op, target);
    var before, after := Replay(s.docs, target), Replay(Apply(Forge, s, op).docs, target);
    if after != before {
      var k :| Move(before.value, k) == after;
      NoMoveLeavesMerged(before.value, k);
    }
  }

  /** One operation leaves a thread as it is or makes one move of it. */
  lemma {:induction false} StepMoves(s: State, op: Op, target: Option<Value>)
    requires Booked(s.docs, target)
    ensures var before, after := Replay(s.docs, target), Replay(Apply(Forge, s, op).docs, target);
            after == before || exists k :: Move(before.value, k) == after
  {
    var after := Apply(Forge, s, op).docs;
    StepAppends(Forge, s, op, Transition);
    if Accepts(Forge, s, op) && op.Create? {
      LedgerAppend(s.docs, Doc(op.typ, CreatedView(s, op.signer, op.data), true), target);
    } else {
      LedgerUnmoved(s.docs, after, target);
    }
  }
}
