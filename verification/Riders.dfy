/** `allowed` and `riders` of `variants.py`: which flags may ride on others, under a table of needs. */
module Riders {
  type Needs = map<string, set<string>>

  function Elements(s: seq<string>): (r: set<string>) {
    set x | x in s
  }

  /** Every flag that is on has on what it needs. */
  predicate Allowed(needs: Needs, lit: set<string>) {
    forall f | f in needs && f in lit :: needs[f] <= lit
  }

  /** What `riders` has taken after the first `n` flags; `on` holds every flag on from the start. */
  function Taken(needs: Needs, on: set<string>, flags: seq<string>, n: nat): (r: seq<string>)
    requires n <= |flags|
  {
    if n == 0 then []
    else
      var before := Taken(needs, on, flags, n - 1);
      if Allowed(needs, on + Elements(before + [flags[n - 1]])) then before + [flags[n - 1]] else before
  }

  method Ride(needs: Needs, on: set<string>, flags: seq<string>) returns (out: seq<string>)
    ensures out == Taken(needs, on, flags, |flags|)
  {
    out := [];
    for i := 0 to |flags|
      invariant out == Taken(needs, on, flags, i)
    {
      if Allowed(needs, on + Elements(out + [flags[i]])) {
        out := out + [flags[i]];
      }
    }
  }

  /** `g` is the greatest set of these flags that keeps every implication. */
  ghost predicate Greatest(needs: Needs, on: set<string>, flags: seq<string>, g: set<string>) {
    && g <= Elements(flags) && Allowed(needs, on + g)
    && forall s: set<string> | s <= Elements(flags) && Allowed(needs, on + s) :: s <= g
  }

  /** Allowed sets are closed under union, so there is at most one greatest and growing is safe. */
  lemma UnionIsAllowed(needs: Needs, on: set<string>, a: set<string>, b: set<string>)
    requires Allowed(needs, on + a) && Allowed(needs, on + b)
    ensures Allowed(needs, on + (a + b))
  {
    forall f | f in needs && f in on + (a + b) ensures needs[f] <= on + (a + b) {
      if f in on + a {
        assert needs[f] <= on + a;
      } else {
        assert needs[f] <= on + b;
      }
    }
  }

  lemma ElementsAppend(s: seq<string>, x: string)
    ensures Elements(s + [x]) == Elements(s) + {x}
  {
  }

  lemma {:induction false} TakenIsAllowed(needs: Needs, on: set<string>, flags: seq<string>, n: nat)
    requires n <= |flags| && Allowed(needs, on)
    ensures Allowed(needs, on + Elements(Taken(needs, on, flags, n)))
    ensures Elements(Taken(needs, on, flags, n)) <= Elements(flags[..n])
  {
    if n > 0 {
      TakenIsAllowed(needs, on, flags, n - 1);
      assert flags[..n] == flags[..n - 1] + [flags[n - 1]];
      ElementsAppend(flags[..n - 1], flags[n - 1]);
      ElementsAppend(Taken(needs, on, flags, n - 1), flags[n - 1]);
    } else {
      assert on + Elements([]) == on;
    }
  }

  lemma {:induction false} TakenGrows(needs: Needs, on: set<string>, flags: seq<string>, i: nat, n: nat)
    requires i <= n <= |flags|
    ensures Elements(Taken(needs, on, flags, i)) <= Elements(Taken(needs, on, flags, n))
  {
    if i < n {
      TakenGrows(needs, on, flags, i, n - 1);
    }
  }

  /** Flag `i` has what it needs among the flags up to it and those on from the start. */
  predicate Served(needs: Needs, on: set<string>, flags: seq<string>, i: nat)
    requires i < |flags|
  {
    flags[i] in needs ==> needs[flags[i]] <= on + Elements(flags[..i + 1])
  }

  /** Each flag of `g` stands after all that it needs. */
  predicate Orderly(needs: Needs, on: set<string>, flags: seq<string>, g: set<string>) {
    forall i | 0 <= i < |flags| && flags[i] in g :: Served(needs, on, flags, i)
  }

  predicate Distinct(flags: seq<string>) {
    forall i, j | 0 <= i < j < |flags| :: flags[i] != flags[j]
  }

  /** A flag is taken where everything it needs has been taken. */
  lemma {:induction false} TakenHere(needs: Needs, on: set<string>, flags: seq<string>, i: nat)
    requires i < |flags| && Allowed(needs, on)
    requires flags[i] in needs ==> needs[flags[i]] <= on + Elements(Taken(needs, on, flags, i)) + {flags[i]}
    ensures flags[i] in Elements(Taken(needs, on, flags, i + 1))
  {
    var before, f := Taken(needs, on, flags, i), flags[i];
    TakenIsAllowed(needs, on, flags, i);
    ElementsAppend(before, f);
    forall x | x in needs && x in on + Elements(before + [f]) ensures needs[x] <= on + Elements(before + [f]) {
      if x in on + Elements(before) {
        assert needs[x] <= on + Elements(before);
      }
    }
  }

  /** In an orderly list every flag of an allowed set is taken when it is reached. */
  lemma {:induction false} OrderlyIsTaken(needs: Needs, on: set<string>, flags: seq<string>, g: set<string>, n: nat)
    requires n <= |flags| && Allowed(needs, on) && Allowed(needs, on + g) && Orderly(needs, on, flags, g)
    ensures forall i | 0 <= i < n && flags[i] in g :: flags[i] in Elements(Taken(needs, on, flags, n))
  {
    if n > 0 {
      OrderlyIsTaken(needs, on, flags, g, n - 1);
      TakenGrows(needs, on, flags, n - 1, n);
      if flags[n - 1] in g {
        NeedsAreTaken(needs, on, flags, g, n - 1);
        TakenHere(needs, on, flags, n - 1);
      }
    }
  }

  /** When flag `i` is reached, what it needs is on, taken, or the flag itself. */
  lemma {:induction false} NeedsAreTaken(needs: Needs, on: set<string>, flags: seq<string>, g: set<string>, i: nat)
    requires i < |flags| && flags[i] in g && Allowed(needs, on + g) && Served(needs, on, flags, i)
    requires forall j | 0 <= j < i && flags[j] in g :: flags[j] in Elements(Taken(needs, on, flags, i))
    ensures flags[i] in needs ==> needs[flags[i]] <= on + Elements(Taken(needs, on, flags, i)) + {flags[i]}
  {
    var f := flags[i];
    if f in needs {
      forall d | d in needs[f] && d !in on ensures d in Elements(Taken(needs, on, flags, i)) + {f} {
        assert d in on + g && d in on + Elements(flags[..i + 1]);
        var j :| 0 <= j < i + 1 && flags[..i + 1][j] == d;
        assert flags[j] == d;
      }
    }
  }

  /** A flag that was taken had, where it stood, what it needs. */
  lemma {:induction false} TakenIsServed(needs: Needs, on: set<string>, flags: seq<string>, n: nat, i: nat)
    requires i < n <= |flags| && Allowed(needs, on) && Distinct(flags)
    requires flags[i] in Elements(Taken(needs, on, flags, n))
    ensures Served(needs, on, flags, i)
  {
    var before := Taken(needs, on, flags, n - 1);
    TakenIsAllowed(needs, on, flags, n - 1);
    if i < n - 1 {
      ElementsAppend(before, flags[n - 1]);
      TakenIsServed(needs, on, flags, n - 1, i);
    } else {
      NotYet(flags, i);
      TakenIsAllowed(needs, on, flags, n);
    }
  }

  lemma NotYet(flags: seq<string>, i: nat)
    requires i < |flags| && Distinct(flags)
    ensures flags[i] !in Elements(flags[..i])
  {
  }

  /** A greatest set exists for every list: as long as some allowed set is not inside the one at
      hand, the union of the two is allowed and larger. */
  lemma {:induction false} GreatestAbove(needs: Needs, on: set<string>, flags: seq<string>, from: set<string>) returns (g: set<string>)
    requires from <= Elements(flags) && Allowed(needs, on + from)
    ensures Greatest(needs, on, flags, g)
    decreases Elements(flags) - from
  {
    if s: set<string> :| s <= Elements(flags) && Allowed(needs, on + s) && !(s <= from) {
      UnionIsAllowed(needs, on, from, s);
      assert Elements(flags) - (from + s) < Elements(flags) - from;
      g := GreatestAbove(needs, on, flags, from + s);
    } else {
      g := from;
    }
  }

  /** What `riders` takes lies in the greatest set that keeps every need, and is that set exactly when
      each flag of the set stands after what it needs. */
  lemma RidersAreGreatestIff(needs: Needs, on: set<string>, flags: seq<string>) returns (g: set<string>)
    requires Allowed(needs, on) && Distinct(flags)
    ensures Greatest(needs, on, flags, g)
    ensures Elements(Taken(needs, on, flags, |flags|)) <= g
    ensures Elements(Taken(needs, on, flags, |flags|)) == g <==> Orderly(needs, on, flags, g)
  {
    var n := |flags|;
    var out := Elements(Taken(needs, on, flags, n));
    assert on + {} == on;
    g := GreatestAbove(needs, on, flags, {});
    TakenIsAllowed(needs, on, flags, n);
    assert flags[..n] == flags;
    if Orderly(needs, on, flags, g) {
      OrderlyIsTaken(needs, on, flags, g, n);
      assert g <= out;
    }
    if out == g {
      forall i | 0 <= i < n && flags[i] in g ensures Served(needs, on, flags, i) {
        TakenIsServed(needs, on, flags, n, i);
      }
    }
  }

  /** No flag stands before one it needs. */
  predicate DependenciesFirst(needs: Needs, flags: seq<string>) {
    forall i, j | 0 <= i < j < |flags| :: flags[i] in needs ==> flags[j] !in needs[flags[i]]
  }

  /** With dependencies first, as the tables are written, the greedy list is the greatest one. */
  lemma {:induction false} DependenciesFirstIsGreatest(needs: Needs, on: set<string>, flags: seq<string>)
    requires Allowed(needs, on) && Distinct(flags) && DependenciesFirst(needs, flags)
    ensures Greatest(needs, on, flags, Elements(Taken(needs, on, flags, |flags|)))
  {
    var n := |flags|;
    var out := Elements(Taken(needs, on, flags, n));
    TakenIsAllowed(needs, on, flags, n);
    assert flags[..n] == flags;
    forall s: set<string> | s <= Elements(flags) && Allowed(needs, on + s) ensures s <= out {
      FirstMakesOrderly(needs, on, flags, s);
      OrderlyIsTaken(needs, on, flags, s, n);
    }
  }

  lemma FirstMakesOrderly(needs: Needs, on: set<string>, flags: seq<string>, s: set<string>)
    requires DependenciesFirst(needs, flags) && s <= Elements(flags) && Allowed(needs, on + s)
    ensures Orderly(needs, on, flags, s)
  {
    forall i | 0 <= i < |flags| && flags[i] in s && flags[i] in needs ensures needs[flags[i]] <= on + Elements(flags[..i + 1]) {
      forall d | d in needs[flags[i]] ensures d in on + Elements(flags[..i + 1]) {
        assert needs[flags[i]] <= on + s;
        if d !in on {
          var j :| 0 <= j < |flags| && flags[j] == d;
          assert j <= i;
          assert flags[..i + 1][j] == d;
        }
      }
    }
  }

  /** Out of order it can fall short: with `a` needing `b` and listed first, only `b` rides. */
  lemma WrongOrderFallsShort()
    ensures var needs := map["a" := {"b"}];
      Elements(Taken(needs, {}, ["a", "b"], 2)) == {"b"} && Allowed(needs, {} + {"a", "b"})
  {
    var needs := map["a" := {"b"}];
    var flags := ["a", "b"];
    assert "a" in Elements([] + ["a"]) && "b" !in {} + Elements([] + ["a"]);
    assert Taken(needs, {}, flags, 0) == [];
    assert Taken(needs, {}, flags, 1) == [];
    assert Elements([] + ["b"]) == {"b"};
    assert Taken(needs, {}, flags, 2) == ["b"];
  }
}
