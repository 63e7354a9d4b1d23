/** `_defs_used`: the definitions a schema tree reaches by `$ref`, found with a worklist. */
module SchemaDefs {
  import opened JsonValues
  import opened JsonPointers

  type Defs = map<string, Json>

  /** The names a dictionary's own `$ref` gives: the last piece of its path. */
  function OwnRef(m: map<string, Json>): (r: set<string>) {
    if "$ref" in m && m["$ref"].Str? then {BaseName(m["$ref"].s)} else {}
  }

  /** Every name a `$ref` anywhere in the tree gives. */
  function RefsIn(node: Json): (r: set<string>) {
    match node
    case Obj(m) => OwnRef(m) + (set k, n | k in m && n in RefsIn(m[k]) :: n)
    case Arr(xs) => set i, n | 0 <= i < |xs| && n in RefsIn(xs[i]) :: n
    case _ => {}
  }

  /** A chain of references: from the root to the first name, then from definition to definition. */
  predicate Chain(root: Json, defs: Defs, path: seq<string>) {
    && path != []
    && path[0] in RefsIn(root)
    && forall i | 0 < i < |path| :: Step(defs, path, i)
  }

  predicate Step(defs: Defs, path: seq<string>, i: int) {
    0 < i < |path| && path[i - 1] in defs && path[i] in RefsIn(defs[path[i - 1]])
  }

  ghost predicate Reachable(root: Json, defs: Defs, name: string) {
    exists path: seq<string> :: Chain(root, defs, path) && path[|path| - 1] == name
  }

  lemma {:induction false} FirstIsReachable(root: Json, defs: Defs, name: string)
    requires name in RefsIn(root)
    ensures Reachable(root, defs, name)
  {
    assert Chain(root, defs, [name]);
  }

  lemma NextIsReachable(root: Json, defs: Defs, from: string, name: string)
    requires Reachable(root, defs, from) && from in defs && name in RefsIn(defs[from])
    ensures Reachable(root, defs, name)
  {
    var path: seq<string> :| Chain(root, defs, path) && path[|path| - 1] == from;
    var longer := path + [name];
    forall i | 0 < i < |longer| ensures Step(defs, longer, i) {
      if i < |path| {
        assert Step(defs, path, i);
      }
    }
    assert Chain(root, defs, longer);
  }

  /** Holds the root's references and, with each definition, the definition's references. */
  predicate Closed(root: Json, defs: Defs, names: set<string>) {
    && RefsIn(root) <= names
    && names <= defs.Keys
    && forall n | n in names && n in defs :: RefsIn(defs[n]) <= names
  }

  lemma {:induction false} ChainStaysInside(root: Json, defs: Defs, names: set<string>, path: seq<string>, i: nat)
    requires Closed(root, defs, names) && Chain(root, defs, path) && i < |path|
    ensures path[i] in names
  {
    if i > 0 {
      ChainStaysInside(root, defs, names, path, i - 1);
      assert Step(defs, path, i);
    }
  }

  /** A closed set holds every reachable name. */
  lemma ClosedHoldsReachable(root: Json, defs: Defs, names: set<string>)
    requires Closed(root, defs, names)
    ensures forall n | Reachable(root, defs, n) :: n in names
  {
    forall n | Reachable(root, defs, n) ensures n in names {
      var path: seq<string> :| Chain(root, defs, path) && path[|path| - 1] == n;
      ChainStaysInside(root, defs, names, path, |path| - 1);
    }
  }

  // ----- The worklist -----

  /** A node still to walk belongs to the root or to a used definition. */
  predicate Known(root: Json, defs: Defs, used: set<string>, node: Json) {
    node == root || exists n | n in used && n in defs :: node == defs[n]
  }

  /** Everything used is reachable, and whatever is neither waiting nor being walked is done. */
  ghost predicate Loop(root: Json, defs: Defs, used: set<string>, todo: seq<Json>, current: Option<Json>) {
    && used <= defs.Keys
    && (forall n | n in used :: Reachable(root, defs, n))
    && (forall i | 0 <= i < |todo| :: Known(root, defs, used, todo[i]))
    && (root in todo || current == Some(root) || RefsIn(root) <= used)
    && (forall n | n in used && n in defs :: defs[n] in todo || current == Some(defs[n]) || RefsIn(defs[n]) <= used)
  }

  /** The definitions `root` reaches, or nothing when a reachable name is not defined (a KeyError). */
  method DefsUsed(root: Json, defs: Defs) returns (r: Option<set<string>>)
    ensures r.Some? ==> r.value <= defs.Keys && forall n :: n in r.value <==> Reachable(root, defs, n)
    ensures r.None? <==> exists n :: n !in defs && Reachable(root, defs, n)
  {
    var used: set<string>, todo := {}, [root];
    while todo != []
      invariant Loop(root, defs, used, todo, None)
      decreases defs.Keys - used, |todo|
    {
      var node := todo[|todo| - 1];
      FoundIsReachable(root, defs, used, node);
      Popped(root, defs, used, todo);
      todo := todo[..|todo| - 1];
      var missing;
      used, todo, missing := PushAll(root, defs, used, todo, node);
      if missing.Some? {
        return None;
      }
      Walked(root, defs, used, todo, node);
    }
    ClosedHoldsReachable(root, defs, used);
    return Some(used);
  }

  /** `for name in found - used`: mark each new name and put its definition on the list. */
  method PushAll(ghost root: Json, defs: Defs, used: set<string>, todo: seq<Json>, node: Json)
    returns (more: set<string>, after: seq<Json>, missing: Option<string>)
    requires Loop(root, defs, used, todo, Some(node)) && forall n | n in RefsIn(node) :: Reachable(root, defs, n)
    ensures missing.Some? ==> missing.value !in defs && Reachable(root, defs, missing.value)
    ensures missing.None? ==> Loop(root, defs, more, after, Some(node)) && RefsIn(node) <= more
    ensures used <= more && (more == used ==> after == todo)
  {
    more, after := used, todo;
    var newly := RefsIn(node) - used;
    while newly != {}
      invariant Loop(root, defs, more, after, Some(node))
      invariant newly <= RefsIn(node) <= more + newly
      invariant used <= more && (used == more ==> after == todo)
      invariant newly !! more
      decreases newly
    {
      var name :| name in newly;
      if name !in defs {
        return more, after, Some(name);
      }
      Pushed(root, defs, more, after, node, name);
      more, after, newly := more + {name}, after + [defs[name]], newly - {name};
    }
    return more, after, None;
  }

  lemma {:induction false} Walked(root: Json, defs: Defs, used: set<string>, todo: seq<Json>, node: Json)
    requires Loop(root, defs, used, todo, Some(node)) && RefsIn(node) <= used
    ensures Loop(root, defs, used, todo, None)
  {
  }

  lemma Popped(root: Json, defs: Defs, used: set<string>, todo: seq<Json>)
    requires todo != [] && Loop(root, defs, used, todo, None)
    ensures Loop(root, defs, used, todo[..|todo| - 1], Some(todo[|todo| - 1]))
  {
    var n := |todo| - 1;
    assert todo == todo[..n] + [todo[n]];
    assert forall x | x in todo :: x in todo[..n] || x == todo[n];
    assert forall i | 0 <= i < n :: todo[..n][i] == todo[i];
  }

  lemma Pushed(root: Json, defs: Defs, used: set<string>, todo: seq<Json>, node: Json, name: string)
    requires Loop(root, defs, used, todo, Some(node)) && name in defs && Reachable(root, defs, name)
    ensures Loop(root, defs, used + {name}, todo + [defs[name]], Some(node))
  {
    var more, after := used + {name}, todo + [defs[name]];
    assert after[|todo|] == defs[name];
    forall i | 0 <= i < |after| ensures Known(root, defs, more, after[i]) {
      if i < |todo| {
        assert Known(root, defs, used, todo[i]);
      }
    }
    forall x | x in todo ensures x in after {
      var i :| 0 <= i < |todo| && todo[i] == x;
      assert after[i] == x;
    }
  }

  lemma {:induction false} FoundIsReachable(root: Json, defs: Defs, used: set<string>, node: Json)
    requires Known(root, defs, used, node) && used <= defs.Keys
    requires forall n | n in used :: Reachable(root, defs, n)
    ensures forall n | n in RefsIn(node) :: Reachable(root, defs, n)
  {
    forall n | n in RefsIn(node) ensures Reachable(root, defs, n) {
      if node == root {
        FirstIsReachable(root, defs, n);
      } else {
        var from :| from in used && from in defs && node == defs[from];
        NextIsReachable(root, defs, from, n);
      }
    }
  }
}
