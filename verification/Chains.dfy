/** Chains of references between the nodes of a finite graph: without a cycle every node has a height,
    and a reference leads to a lower one. */
module Chains {
  import opened JsonValues

  /** The references of a node, and where each leads, if anywhere. */
  datatype Graph<!T> = Graph(refs: T -> set<string>, to: (T, string) -> Option<T>)

  predicate Follows<T(==)>(g: Graph<T>, t: T, u: T) {
    exists ref | ref in g.refs(t) :: g.to(t, ref) == Some(u)
  }

  predicate Step<T(==)>(g: Graph<T>, path: seq<T>, i: int) {
    0 < i < |path| && Follows(g, path[i - 1], path[i])
  }

  predicate Path<T(==)>(g: Graph<T>, path: seq<T>) {
    forall i | 0 < i < |path| :: Step(g, path, i)
  }

  ghost predicate Acyclic<T(!new)>(g: Graph<T>) {
    forall path: seq<T> | Path(g, path) && |path| > 1 :: path[0] != path[|path| - 1]
  }

  /** `all` holds every node a reference leads to. */
  ghost predicate Within<T(!new)>(g: Graph<T>, all: set<T>) {
    forall t, ref | ref in g.refs(t) && g.to(t, ref).Some? :: g.to(t, ref).value in all
  }

  /** Every chain of references from `t` has at most `n` of them. */
  predicate Low<T>(g: Graph<T>, t: T, n: nat)
    decreases n
  {
    forall ref | ref in g.refs(t) :: n > 0 && (g.to(t, ref).Some? ==> Low(g, g.to(t, ref).value, n - 1))
  }

  lemma {:induction false} LongChain<T>(g: Graph<T>, t: T, n: nat) returns (path: seq<T>)
    requires !Low(g, t, n)
    ensures Path(g, path) && |path| == n + 1 && path[0] == t
  {
    if n == 0 {
      path := [t];
    } else {
      var ref :| ref in g.refs(t) && g.to(t, ref).Some? && !Low(g, g.to(t, ref).value, n - 1);
      var rest := LongChain(g, g.to(t, ref).value, n - 1);
      path := [t] + rest;
      PathCons(g, t, rest);
    }
  }

  lemma PathCons<T>(g: Graph<T>, t: T, rest: seq<T>)
    requires Path(g, rest) && rest != [] && Follows(g, t, rest[0])
    ensures Path(g, [t] + rest)
  {
    var path := [t] + rest;
    forall i | 0 < i < |path| ensures Step(g, path, i) {
      if i > 1 {
        assert Step(g, rest, i - 1);
      }
    }
  }

  lemma {:induction false} DistinctFits<T>(path: seq<T>, all: set<T>)
    requires (forall i, j | 0 <= i < j < |path| :: path[i] != path[j]) && forall i | 0 <= i < |path| :: path[i] in all
    ensures |path| <= |all|
  {
    if path != [] {
      var last := path[|path| - 1];
      DistinctFits(path[..|path| - 1], all - {last});
    }
  }

  lemma PathInside<T(!new)>(g: Graph<T>, all: set<T>, path: seq<T>)
    requires Within(g, all) && Path(g, path) && path != [] && path[0] in all
    ensures forall i | 0 <= i < |path| :: path[i] in all
  {
    forall i | 0 < i < |path| ensures path[i] in all {
      assert Step(g, path, i);
    }
  }

  lemma RepeatIsCycle<T(!new)>(g: Graph<T>, path: seq<T>, i: nat, j: nat)
    requires Path(g, path) && i < j < |path| && path[i] == path[j]
    ensures !Acyclic(g)
  {
    var sub := path[i..j + 1];
    forall k | 0 < k < |sub| ensures Step(g, sub, k) {
      assert Step(g, path, i + k);
    }
    assert Path(g, sub) && |sub| > 1 && sub[0] == sub[|sub| - 1];
  }

  /** Without cycles no chain is longer than there are nodes. */
  lemma {:induction false} AllLow<T(!new)>(g: Graph<T>, all: set<T>, t: T)
    requires Acyclic(g) && Within(g, all) && t in all
    ensures Low(g, t, |all|)
  {
    if !Low(g, t, |all|) {
      var path := LongChain(g, t, |all|);
      PathInside(g, all, path);
      if i, j :| 0 <= i < j < |path| && path[i] == path[j] {
        RepeatIsCycle(g, path, i, j);
      } else {
        DistinctFits(path, all);
      }
    }
  }

  /** The longest chain from a node. */
  ghost function Height<T(!new)>(g: Graph<T>, all: set<T>, t: T): (n: nat)
    requires Acyclic(g) && Within(g, all) && t in all
    ensures Low(g, t, n) && (n > 0 ==> !Low(g, t, n - 1))
  {
    AllLow(g, all, t);
    LeastLow(g, t, |all|)
  }

  ghost function LeastLow<T(!new)>(g: Graph<T>, t: T, n: nat): (m: nat)
    requires Low(g, t, n)
    ensures Low(g, t, m) && (m > 0 ==> !Low(g, t, m - 1))
  {
    if n > 0 && Low(g, t, n - 1) then LeastLow(g, t, n - 1) else n
  }

  lemma {:induction false} LowGrows<T>(g: Graph<T>, t: T, m: nat, n: nat)
    requires Low(g, t, m) && m <= n
    ensures Low(g, t, n)
    decreases m
  {
    forall ref | ref in g.refs(t) && g.to(t, ref).Some? ensures Low(g, g.to(t, ref).value, n - 1) {
      LowGrows(g, g.to(t, ref).value, m - 1, n - 1);
    }
  }

  /** A node with a reference is not at the bottom, and what the reference leads to is lower. */
  lemma HeightFalls<T(!new)>(g: Graph<T>, all: set<T>, t: T, ref: string)
    requires Acyclic(g) && Within(g, all) && t in all && ref in g.refs(t)
    ensures Height(g, all, t) > 0
    ensures g.to(t, ref).Some? ==> Height(g, all, g.to(t, ref).value) < Height(g, all, t)
  {
    var n := Height(g, all, t);
    if g.to(t, ref).Some? {
      var u := g.to(t, ref).value;
      assert Low(g, u, n - 1);
      if Height(g, all, u) > n - 1 {
        LowGrows(g, u, n - 1, Height(g, all, u) - 1);
      }
    }
  }

  /** A measure that falls along every reference excludes cycles. */
  lemma {:induction false} FallingIsAcyclic<T(!new)>(g: Graph<T>, measure: T -> nat)
    requires forall t, ref | ref in g.refs(t) && g.to(t, ref).Some? :: measure(g.to(t, ref).value) < measure(t)
    ensures Acyclic(g)
  {
    forall path: seq<T> | Path(g, path) && |path| > 1 ensures path[0] != path[|path| - 1] {
      PathFalls(g, measure, path, |path| - 1);
    }
  }

  lemma {:induction false} PathFalls<T(!new)>(g: Graph<T>, measure: T -> nat, path: seq<T>, i: nat)
    requires forall t, ref | ref in g.refs(t) && g.to(t, ref).Some? :: measure(g.to(t, ref).value) < measure(t)
    requires Path(g, path) && i < |path|
    ensures measure(path[i]) + i <= measure(path[0])
  {
    if i > 0 {
      PathFalls(g, measure, path, i - 1);
      assert Step(g, path, i);
    }
  }
}
