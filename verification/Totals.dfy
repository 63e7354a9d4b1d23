/** How the totals a rule reads move as the log grows. */
module Totals {
  import opened Rules
  import opened Chain

  lemma ShareUnmoved(a: Doc, b: Doc, t: DocType, f: Field, me: View, keys: Keys)
    requires a == b || (a.typ != t && b.typ != t)
    ensures Share(a, t, f, me, keys) == Share(b, t, f, me, keys)
  {
  }

  /** A total over a type that is never replaced or deleted does not see writes of other types. */
  lemma {:induction false} SumUnmoved(a: seq<Doc>, b: seq<Doc>, t: DocType, f: Field, me: View, keys: Keys)
    requires |a| == |b| && forall i | 0 <= i < |a| :: a[i] == b[i] || (a[i].typ != t && b[i].typ != t)
    ensures SumDocs(a, t, f, me, keys) == SumDocs(b, t, f, me, keys)
    decreases |a|
  {
    if a != [] {
      var n := |a| - 1;
      ShareUnmoved(a[n], b[n], t, f, me, keys);
      SumUnmoved(a[..n], b[..n], t, f, me, keys);
    }
  }

  lemma {:induction false} CountUnmoved(a: seq<Doc>, b: seq<Doc>, t: DocType, me: View, keys: Keys)
    requires |a| == |b| && forall i | 0 <= i < |a| :: a[i] == b[i] || (a[i].typ != t && b[i].typ != t)
    ensures CountDocs(a, t, me, keys) == CountDocs(b, t, me, keys)
    decreases |a|
  {
    if a != [] {
      var n := |a| - 1;
      CountUnmoved(a[..n], b[..n], t, me, keys);
      assert a[n] == b[n] || (a[n].typ != t && b[n].typ != t);
    }
  }

  lemma {:induction false} SumAppend(docs: seq<Doc>, d: Doc, t: DocType, f: Field, me: View, keys: Keys)
    ensures SumDocs(docs + [d], t, f, me, keys)
            == SumDocs(docs, t, f, me, keys) + Share(d, t, f, me, keys)
  {
    assert (docs + [d])[..|docs|] == docs;
  }

  lemma {:induction false} CountAppend(docs: seq<Doc>, d: Doc, t: DocType, me: View, keys: Keys)
    ensures CountDocs(docs + [d], t, me, keys) == CountDocs(docs, t, me, keys) + if Counted(d, t, me, keys) then 1 else 0
  {
    assert (docs + [d])[..|docs|] == docs;
  }

  /** How a log may move in one step, for a type that is neither mutable nor deletable: a new
      document at the end, or nothing that the type's documents can tell. */
  predicate AppendsOnly(a: seq<Doc>, b: seq<Doc>, t: DocType) {
    || (|b| == |a| + 1 && b == a + [b[|a|]] && b[|a|].live)
    || (|b| == |a| && forall i | 0 <= i < |a| :: a[i] == b[i] || (a[i].typ != t && b[i].typ != t))
  }

  lemma StepAppends(C: Contract, s: State, op: Op, t: DocType)
    requires !C(t).mutable && !C(t).deletable
    ensures AppendsOnly(s.docs, Apply(C, s, op).docs, t)
  {
  }
}
