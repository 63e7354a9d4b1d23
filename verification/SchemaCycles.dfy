/** The references a schema follows on one value: they have no cycle exactly when they have the ranking
    the validator's termination rests on. */
module SchemaCycles {
  import opened JsonValues
  import opened JsonPointers
  import opened JsonSchema
  import opened Chains

  /** The references `s` follows without going down in the value. */
  function InPlace(s: Json): (r: set<string>) {
    (if HasRef(s) then {RefOf(s)} else {})
    + (set i, ref | 0 <= i < |ListAt(s, "anyOf")| && ref in InPlace(ListAt(s, "anyOf")[i]) :: ref)
    + (set i, ref | 0 <= i < |ListAt(s, "oneOf")| && ref in InPlace(ListAt(s, "oneOf")[i]) :: ref)
  }

  /** The schemas of the files and the references they follow on one value. */
  function SchemaGraph(files: map<string, Json>): (g: Graph<Target>) {
    Graph((t: Target) => InPlace(t.node), (t: Target, ref: string) => Resolve(files, ref, t.file))
  }

  // ----- Every schema a reference can name -----

  function Nodes(v: Json): (r: set<Json>) {
    {v} + match v
      case Arr(xs) => set i, n | 0 <= i < |xs| && n in Nodes(xs[i]) :: n
      case Obj(m) => set k, n | k in m && n in Nodes(m[k]) :: n
      case _ => {}
  }

  lemma {:induction false} WalkStaysInside(v: Json, keys: seq<string>)
    ensures Walk(v, keys).Some? ==> Walk(v, keys).value in Nodes(v)
  {
    if keys != [] && Get(v, keys[0]).Some? {
      WalkStaysInside(v.members[keys[0]], keys[1..]);
    }
  }

  function AllTargets(files: map<string, Json>): (r: set<Target>) {
    set f, n | f in files && n in Nodes(files[f]) :: Target(n, f)
  }

  lemma ResolvesInside(files: map<string, Json>, ref: string, base: string)
    ensures Resolve(files, ref, base).Some? ==> Resolve(files, ref, base).value in AllTargets(files)
  {
    var r := Resolve(files, ref, base);
    if r.Some? {
      var n := Until(ref, '#');
      var pointer := if n == |ref| then "" else ref[n + 1..];
      WalkStaysInside(files[r.value.file], Unescaped(Parts(pointer)));
    }
  }

  lemma GraphWithin(files: map<string, Json>)
    ensures Within(SchemaGraph(files), AllTargets(files))
  {
    forall t: Target, ref: string | Resolve(files, ref, t.file).Some? ensures Resolve(files, ref, t.file).value in AllTargets(files) {
      ResolvesInside(files, ref, t.file);
    }
  }

  // ----- Weights and ranks -----

  lemma {:induction false} RankedFalls(rank: Rank, s: Json, base: string, ref: string)
    requires ref in InPlace(s)
    ensures rank(base, ref) < Weight(rank, s, base)
  {
    BranchWeights(rank, s, base);
    if !(HasRef(s) && ref == RefOf(s)) {
      if i :| 0 <= i < |ListAt(s, "anyOf")| && ref in InPlace(ListAt(s, "anyOf")[i]) {
        RankedFalls(rank, ListAt(s, "anyOf")[i], base, ref);
      } else {
        var i :| 0 <= i < |ListAt(s, "oneOf")| && ref in InPlace(ListAt(s, "oneOf")[i]);
        RankedFalls(rank, ListAt(s, "oneOf")[i], base, ref);
      }
    }
  }

  ghost predicate Under(rank: Rank, refs: set<string>, base: string, m: nat) {
    forall ref | ref in refs :: rank(base, ref) < m
  }

  lemma {:induction false} WeightIsBelow(rank: Rank, s: Json, base: string, m: nat)
    requires Under(rank, InPlace(s), base, m)
    ensures Weight(rank, s, base) <= m
    decreases s, 1
  {
    HeaviestIsBelow(rank, s, "anyOf", |ListAt(s, "anyOf")|, base, m);
    HeaviestIsBelow(rank, s, "oneOf", |ListAt(s, "oneOf")|, base, m);
  }

  lemma {:induction false} BranchRefs(s: Json, key: string, i: nat)
    requires key in {"anyOf", "oneOf"} && i < |ListAt(s, key)|
    ensures InPlace(ListAt(s, key)[i]) <= InPlace(s)
  {
  }

  lemma {:induction false} HeaviestIsBelow(rank: Rank, s: Json, key: string, n: nat, base: string, m: nat)
    requires key in {"anyOf", "oneOf"} && n <= |ListAt(s, key)| && Under(rank, InPlace(s), base, m)
    ensures Heaviest(rank, s, key, n, base) <= m
    decreases s, 0, n
  {
    if n > 0 {
      HeaviestIsBelow(rank, s, key, n - 1, base, m);
      BranchRefs(s, key, n - 1);
      WeightIsBelow(rank, ListAt(s, key)[n - 1], base, m);
    }
  }

  ghost function HeightOfRef(files: map<string, Json>, base: string, ref: string): (n: nat)
    requires Acyclic(SchemaGraph(files))
  {
    var t := Resolve(files, ref, base);
    ResolvesInside(files, ref, base);
    GraphWithin(files);
    if t.Some? then Height(SchemaGraph(files), AllTargets(files), t.value) else 0
  }

  lemma RefHeightFalls(files: map<string, Json>, t: Target, ref: string)
    requires Acyclic(SchemaGraph(files)) && Within(SchemaGraph(files), AllTargets(files)) && t in AllTargets(files) && ref in InPlace(t.node)
    ensures HeightOfRef(files, t.file, ref) < Height(SchemaGraph(files), AllTargets(files), t)
  {
    HeightFalls(SchemaGraph(files), AllTargets(files), t, ref);
  }

  lemma TargetWeight(files: map<string, Json>, rank: Rank, t: Target)
    requires Acyclic(SchemaGraph(files)) && Within(SchemaGraph(files), AllTargets(files)) && t in AllTargets(files)
    requires forall base, ref :: rank(base, ref) == HeightOfRef(files, base, ref)
    ensures Weight(rank, t.node, t.file) <= Height(SchemaGraph(files), AllTargets(files), t)
  {
    var m := Height(SchemaGraph(files), AllTargets(files), t);
    forall ref | ref in InPlace(t.node) ensures rank(t.file, ref) < m {
      RefHeightFalls(files, t, ref);
    }
    WeightIsBelow(rank, t.node, t.file, m);
  }

  lemma RankByHeight(env: Env) returns (rank: Rank)
    requires Acyclic(SchemaGraph(env.files))
    ensures Ranked(env, rank)
  {
    rank := (base, ref) => HeightOfRef(env.files, base, ref);
    GraphWithin(env.files);
    forall ref, base | Resolve(env.files, ref, base).Some?
      ensures var t := Resolve(env.files, ref, base).value; Weight(rank, t.node, t.file) <= rank(base, ref)
    {
      ResolvesInside(env.files, ref, base);
      TargetWeight(env.files, rank, Resolve(env.files, ref, base).value);
    }
  }

  lemma RankedIsAcyclic(env: Env, rank: Rank)
    requires Ranked(env, rank)
    ensures Acyclic(SchemaGraph(env.files))
  {
    var g := SchemaGraph(env.files);
    var measure: Target -> nat := (t: Target) => Weight(rank, t.node, t.file);
    forall t: Target, ref: string | ref in InPlace(t.node) && Resolve(env.files, ref, t.file).Some?
      ensures measure(Resolve(env.files, ref, t.file).value) < measure(t)
    {
      RankedFalls(rank, t.node, t.file, ref);
    }
    FallingIsAcyclic(g, measure);
  }

  /** The references of the files have no cycle on one value exactly when they can be ranked. */
  lemma AcyclicIffRanked(env: Env)
    ensures Acyclic(SchemaGraph(env.files)) <==> exists rank: Rank :: Ranked(env, rank)
  {
    if Acyclic(SchemaGraph(env.files)) {
      var rank := RankByHeight(env);
    }
    if rank: Rank :| Ranked(env, rank) {
      RankedIsAcyclic(env, rank);
    }
  }
}
