/** `split_meta`: moving document types, with the definitions they use, into a contract of their own. */
module SplitMeta {
  import opened JsonValues
  import opened SchemaDefs

  // ----- References to document types -----

  predicate IsReference(m: map<string, Json>) {
    && "type" in m && (m["type"] == Str("permanentDocument") || m["type"] == Str("deletableDocument"))
    && "documentType" in m
  }

  /** `name_source`: a reference that names no contract gets its own contract's id. */
  function NameSource(node: Json, id: string): (r: Json) {
    match node
    case Obj(m) =>
      var named := map k | k in m :: NameSource(m[k], id);
      Obj(if IsReference(m) && "contractId" !in m then named["contractId" := Str(id)] else named)
    case Arr(xs) => Arr(seq(|xs|, i requires 0 <= i < |xs| => NameSource(xs[i], id)))
    case _ => node
  }

  /** A document type of a contract, by the contract's id. */
  datatype Target = Target(contract: string, docType: string)

  function OwnTarget(m: map<string, Json>, own: string): (r: set<Target>) {
    if !IsReference(m) || !m["documentType"].Str? then {}
    else if "contractId" !in m then {Target(own, m["documentType"].s)}
    else if m["contractId"].Str? then {Target(m["contractId"].s, m["documentType"].s)}
    else {}
  }

  /** The types a tree of contract `own` refers to. */
  function Targets(node: Json, own: string): (r: set<Target>) {
    match node
    case Obj(m) => OwnTarget(m, own) + (set k, t | k in m && t in Targets(m[k], own) :: t)
    case Arr(xs) => set i, t | 0 <= i < |xs| && t in Targets(xs[i], own) :: t
    case _ => {}
  }

  /** Naming the source touches no `$ref`. */
  lemma {:induction false} NamingKeepsRefs(node: Json, id: string)
    ensures RefsIn(NameSource(node, id)) == RefsIn(node)
  {
    match node
    case Obj(m) =>
      forall k | k in m ensures RefsIn(NameSource(m[k], id)) == RefsIn(m[k]) {
        NamingKeepsRefs(m[k], id);
      }
      ObjRefs(m, id);
    case Arr(xs) =>
      forall i | 0 <= i < |xs| ensures RefsIn(NameSource(xs[i], id)) == RefsIn(xs[i]) {
        NamingKeepsRefs(xs[i], id);
      }
      ArrRefs(xs, id);
    case _ =>
  }

  lemma {:induction false} ObjRefs(m: map<string, Json>, id: string)
    requires forall k | k in m :: RefsIn(NameSource(m[k], id)) == RefsIn(m[k])
    ensures RefsIn(NameSource(Obj(m), id)) == RefsIn(Obj(m))
  {
    var named := NameSource(Obj(m), id).members;
    assert OwnRef(named) == OwnRef(m);
    forall n ensures n in RefsIn(Obj(named)) <==> n in RefsIn(Obj(m)) {
      if k :| k in m && n in RefsIn(m[k]) {
        assert named[k] == NameSource(m[k], id);
      }
      if k :| k in named && n in RefsIn(named[k]) {
        assert k in m ==> named[k] == NameSource(m[k], id);
      }
    }
  }

  lemma {:induction false} ArrRefs(xs: seq<Json>, id: string)
    requires forall i | 0 <= i < |xs| :: RefsIn(NameSource(xs[i], id)) == RefsIn(xs[i])
    ensures RefsIn(NameSource(Arr(xs), id)) == RefsIn(Arr(xs))
  {
    var ys := NameSource(Arr(xs), id).items;
    forall n ensures n in RefsIn(Arr(ys)) <==> n in RefsIn(Arr(xs)) {
      if i :| 0 <= i < |xs| && n in RefsIn(xs[i]) {
        assert n in RefsIn(ys[i]);
      }
      if i :| 0 <= i < |ys| && n in RefsIn(ys[i]) {
        assert n in RefsIn(xs[i]);
      }
    }
  }

  /** Once its source is named, a tree refers to the same types from whatever contract it stands in. */
  lemma {:induction false} NamingKeepsTargets(node: Json, id: string, own: string)
    ensures Targets(NameSource(node, id), own) == Targets(node, id)
  {
    match node
    case Obj(m) =>
      forall k | k in m ensures Targets(NameSource(m[k], id), own) == Targets(m[k], id) {
        NamingKeepsTargets(m[k], id, own);
      }
      ObjTargets(m, id, own);
    case Arr(xs) =>
      forall i | 0 <= i < |xs| ensures Targets(NameSource(xs[i], id), own) == Targets(xs[i], id) {
        NamingKeepsTargets(xs[i], id, own);
      }
      ArrTargets(xs, id, own);
    case _ =>
  }

  lemma {:induction false} ObjTargets(m: map<string, Json>, id: string, own: string)
    requires forall k | k in m :: Targets(NameSource(m[k], id), own) == Targets(m[k], id)
    ensures Targets(NameSource(Obj(m), id), own) == Targets(Obj(m), id)
  {
    var named := NameSource(Obj(m), id).members;
    OwnTargetNamed(m, id, own);
    forall t ensures t in Targets(Obj(named), own) <==> t in Targets(Obj(m), id) {
      if k :| k in m && t in Targets(m[k], id) {
        assert named[k] == NameSource(m[k], id);
      }
      if k :| k in named && t in Targets(named[k], own) {
        assert k in m ==> named[k] == NameSource(m[k], id);
      }
    }
  }

  lemma {:induction false} OwnTargetNamed(m: map<string, Json>, id: string, own: string)
    ensures OwnTarget(NameSource(Obj(m), id).members, own) == OwnTarget(m, id)
  {
    var named := NameSource(Obj(m), id).members;
    assert forall k | k in m :: m[k].Str? <==> NameSource(m[k], id).Str?;
    assert forall k | k in m && m[k].Str? :: NameSource(m[k], id) == m[k];
    assert IsReference(m) <==> IsReference(named);
  }

  lemma {:induction false} ArrTargets(xs: seq<Json>, id: string, own: string)
    requires forall i | 0 <= i < |xs| :: Targets(NameSource(xs[i], id), own) == Targets(xs[i], id)
    ensures Targets(NameSource(Arr(xs), id), own) == Targets(Arr(xs), id)
  {
    var ys := NameSource(Arr(xs), id).items;
    forall t ensures t in Targets(Arr(ys), own) <==> t in Targets(Arr(xs), id) {
      if i :| 0 <= i < |xs| && t in Targets(xs[i], id) {
        assert t in Targets(ys[i], own);
      }
      if i :| 0 <= i < |ys| && t in Targets(ys[i], own) {
        assert t in Targets(xs[i], id);
      }
    }
  }

  // ----- The split -----

  /** A contract's document types and definitions. */
  datatype Text = Text(docs: map<string, Json>, defs: Defs)

  type Contracts = map<string, Text>

  /** One entry of META_TYPES: a document type and the contract it leaves. */
  datatype Move = Move(source: string, docType: string)

  datatype Outcome = Refused | Split(contracts: Contracts, meta: Text, moved: map<string, string>)

  /** The ids contracts are named by are distinct, and every source is a named contract. */
  predicate WellNamed(cs: Contracts, ids: map<string, string>, moves: seq<Move>) {
    && cs.Keys <= ids.Keys
    && (forall a, b | a in ids && b in ids :: ids[a] == ids[b] ==> a == b)
    && (forall i | 0 <= i < |moves| :: moves[i].source in cs)
    && (forall i, j | 0 <= i < j < |moves| :: moves[i].docType != moves[j].docType)
  }

  /** Which types the first `n` moves take, and from where: those their source defines. */
  function MovedBy(cs: Contracts, moves: seq<Move>, n: nat): (r: map<string, string>)
    requires n <= |moves| && forall i | 0 <= i < |moves| :: moves[i].source in cs
  {
    if n == 0 then map[]
    else
      var r, last := MovedBy(cs, moves, n - 1), moves[n - 1];
      if last.docType in cs[last.source].docs then r[last.docType := last.source] else r
  }

  function Remaining(cs: Contracts, moved: map<string, string>, name: string): (r: map<string, Json>)
    requires name in cs
  {
    map t | t in cs[name].docs && !(t in moved && moved[t] == name) :: cs[name].docs[t]
  }

  /** The definition `d` is used by the moved type `t`, in the contract it came from. */
  ghost predicate UsedBy(cs: Contracts, moved: map<string, string>, t: string, d: string) {
    t in moved && moved[t] in cs && t in cs[moved[t]].docs && Reachable(cs[moved[t]].docs[t], cs[moved[t]].defs, d)
  }

  /** What the new contract holds after the moves: each moved type and each definition it uses, with
      the source named in every reference, and no other definition. */
  ghost predicate MetaRight(cs: Contracts, ids: map<string, string>, moved: map<string, string>, meta: Text) {
    && meta.docs.Keys == moved.Keys
    && (forall t | t in moved :: DocRight(cs, ids, moved, meta, t))
    && (forall t, d | UsedBy(cs, moved, t, d) :: DefRight(cs, ids, moved[t], meta, d))
    && (forall d | d in meta.defs :: exists t :: UsedBy(cs, moved, t, d))
  }

  predicate DocRight(cs: Contracts, ids: map<string, string>, moved: map<string, string>, meta: Text, t: string) {
    && t in moved && moved[t] in cs && moved[t] in ids && t in cs[moved[t]].docs
    && t in meta.docs && meta.docs[t] == NameSource(cs[moved[t]].docs[t], ids[moved[t]])
  }

  predicate DefRight(cs: Contracts, ids: map<string, string>, source: string, meta: Text, d: string) {
    && source in cs && source in ids && d in cs[source].defs
    && d in meta.defs && meta.defs[d] == NameSource(cs[source].defs[d], ids[source])
  }

  // ----- What makes the split refuse -----

  /** A moved type, or what stays of some contract, reaches a definition its contract does not have. */
  ghost predicate Undefined(cs: Contracts, moved: map<string, string>) {
    (exists t, d :: UsedBy(cs, moved, t, d) && d !in cs[moved[t]].defs)
    || (exists n, d :: LeftReaches(cs, moved, n, d) && d !in cs[n].defs)
  }

  ghost predicate LeftReaches(cs: Contracts, moved: map<string, string>, n: string, d: string) {
    n in cs && Reachable(Obj(Remaining(cs, moved, n)), cs[n].defs, d)
  }

  /** Two moved types use different definitions of one name. */
  ghost predicate Clashing(cs: Contracts, ids: map<string, string>, moved: map<string, string>) {
    exists t, u, d :: Clash(cs, ids, moved, t, u, d)
  }

  ghost predicate Clash(cs: Contracts, ids: map<string, string>, moved: map<string, string>, t: string, u: string, d: string) {
    && UsedBy(cs, moved, t, d) && UsedBy(cs, moved, u, d)
    && moved[t] in ids && moved[u] in ids && d in cs[moved[t]].defs && d in cs[moved[u]].defs
    && NameSource(cs[moved[t]].defs[d], ids[moved[t]]) != NameSource(cs[moved[u]].defs[d], ids[moved[u]])
  }

  /** The contract a dictionary's `contractId` names is `source`; an unknown id reads as `name` itself. */
  predicate PointsTo(m: map<string, Json>, name: string, ids: map<string, string>, source: string) {
    if "contractId" in m && m["contractId"].Str? && m["contractId"].s in ids.Values
    then source in ids && ids[source] == m["contractId"].s
    else source == name
  }

  /** Some dictionary of the tree refers to a moved type in the contract it left. */
  predicate Strands(node: Json, name: string, ids: map<string, string>, moved: map<string, string>) {
    match node
    case Obj(m) =>
      || ("documentType" in m && m["documentType"].Str? && m["documentType"].s in moved
          && PointsTo(m, name, ids, moved[m["documentType"].s]))
      || (exists k | k in m :: Strands(m[k], name, ids, moved))
    case Arr(xs) => exists i | 0 <= i < |xs| :: Strands(xs[i], name, ids, moved)
    case _ => false
  }

  predicate Stranded(cs: Contracts, ids: map<string, string>, moved: map<string, string>) {
    exists n | n in cs :: StrandedIn(cs, ids, moved, n)
  }

  predicate StrandedIn(cs: Contracts, ids: map<string, string>, moved: map<string, string>, n: string)
    requires n in cs
  {
    Strands(Obj(Remaining(cs, moved, n)), n, ids, moved) || Strands(Obj(cs[n].defs), n, ids, moved)
  }

  /** A contract that stays: its unmoved types, and exactly the definitions they reach. */
  ghost predicate Pruned(cs: Contracts, moved: map<string, string>, n: string, c: Text) {
    && n in cs && c.docs == Remaining(cs, moved, n) && c.defs.Keys <= cs[n].defs.Keys
    && (forall d :: d in c.defs <==> Reachable(Obj(c.docs), cs[n].defs, d))
    && (forall d | d in c.defs && d in cs[n].defs :: c.defs[d] == cs[n].defs[d])
  }

  // ----- Moving the types -----

  /** Add the used definitions to the new contract; nothing when one differs from what is there. */
  method AddDefs(defs: Defs, source: Defs, used: set<string>, id: string) returns (r: Option<Defs>)
    requires used <= source.Keys
    ensures r.Some? ==> r.value.Keys == defs.Keys + used
    ensures r.Some? ==> forall d | d in defs :: r.value[d] == defs[d]
    ensures r.Some? ==> forall d | d in used :: r.value[d] == NameSource(source[d], id)
    ensures r.None? ==> exists d :: d in used && d in defs && defs[d] != NameSource(source[d], id)
  {
    var out, todo := defs, used;
    while todo != {}
      invariant todo <= used
      invariant out.Keys == defs.Keys + (used - todo)
      invariant forall d | d in defs :: out[d] == defs[d]
      invariant forall d | d in used - todo :: out[d] == NameSource(source[d], id)
      decreases todo
    {
      var d :| d in todo;
      var named := NameSource(source[d], id);
      if d in out && out[d] != named {
        return None;
      }
      out, todo := out[d := named], todo - {d};
    }
    return Some(out);
  }

  lemma {:induction false} FreshType(cs: Contracts, ids: map<string, string>, moves: seq<Move>, i: nat, n: nat)
    requires WellNamed(cs, ids, moves) && n <= i < |moves|
    ensures moves[i].docType !in MovedBy(cs, moves, n)
  {
    if n > 0 {
      FreshType(cs, ids, moves, i, n - 1);
    }
  }

  lemma {:induction false} MovedGrows(cs: Contracts, ids: map<string, string>, moves: seq<Move>, i: nat, n: nat)
    requires WellNamed(cs, ids, moves) && i <= n <= |moves|
    ensures Extends(MovedBy(cs, moves, i), MovedBy(cs, moves, n))
  {
    if i < n {
      MovedGrows(cs, ids, moves, i, n - 1);
      FreshType(cs, ids, moves, n - 1, n - 1);
    }
  }

  predicate Extends(a: map<string, string>, b: map<string, string>) {
    forall t | t in a :: t in b && b[t] == a[t]
  }

  lemma {:induction false} PartReaches(docs: map<string, Json>, t: string, defs: Defs, d: string)
    requires t in docs && Reachable(docs[t], defs, d)
    ensures Reachable(Obj(docs), defs, d)
  {
    var path: seq<string> :| Chain(docs[t], defs, path) && path[|path| - 1] == d;
    assert Chain(Obj(docs), defs, path);
  }

  /** The definitions after the type `t` of `source` joined the new contract. */
  ghost predicate DefsJoined(cs: Contracts, ids: map<string, string>, meta: Text, source: string, t: string, defs: Defs)
    requires source in cs && source in ids && t in cs[source].docs
  {
    && (forall d | Reachable(cs[source].docs[t], cs[source].defs, d) ::
          d in cs[source].defs && d in defs && defs[d] == NameSource(cs[source].defs[d], ids[source]))
    && (forall d | d in meta.defs :: d in defs && defs[d] == meta.defs[d])
    && (forall d | d in defs :: d in meta.defs || Reachable(cs[source].docs[t], cs[source].defs, d))
  }

  lemma MetaStep(cs: Contracts, ids: map<string, string>, moved: map<string, string>, meta: Text, source: string, t: string, defs: Defs)
    requires MetaRight(cs, ids, moved, meta) && source in cs && source in ids && t in cs[source].docs && t !in moved
    requires DefsJoined(cs, ids, meta, source, t, defs)
    ensures MetaRight(cs, ids, moved[t := source], Text(meta.docs[t := NameSource(cs[source].docs[t], ids[source])], defs))
  {
    var moved' := moved[t := source];
    var meta' := Text(meta.docs[t := NameSource(cs[source].docs[t], ids[source])], defs);
    forall u | u in moved' ensures DocRight(cs, ids, moved', meta', u) {
      assert u != t ==> DocRight(cs, ids, moved, meta, u);
    }
    forall u, d | UsedBy(cs, moved', u, d) ensures DefRight(cs, ids, moved'[u], meta', d) {
      UsedStays(cs, ids, moved, meta, source, t, defs, u, d);
    }
    forall d | d in defs ensures exists u :: UsedBy(cs, moved', u, d) {
      DefHasUser(cs, moved, meta, source, t, d, moved');
    }
  }

  lemma UsedStays(cs: Contracts, ids: map<string, string>, moved: map<string, string>, meta: Text, source: string, t: string, defs: Defs,
                  u: string, d: string)
    requires MetaRight(cs, ids, moved, meta) && source in cs && source in ids && t in cs[source].docs && t !in moved
    requires DefsJoined(cs, ids, meta, source, t, defs) && UsedBy(cs, moved[t := source], u, d)
    ensures forall docs :: DefRight(cs, ids, moved[t := source][u], Text(docs, defs), d)
  {
    if u != t {
      assert UsedBy(cs, moved, u, d);
      assert DefRight(cs, ids, moved[u], meta, d);
    }
  }

  lemma DefHasUser(cs: Contracts, moved: map<string, string>, meta: Text, source: string, t: string, d: string, after: map<string, string>)
    requires source in cs && t in cs[source].docs && t !in moved && after == moved[t := source]
    requires (exists u :: UsedBy(cs, moved, u, d)) || Reachable(cs[source].docs[t], cs[source].defs, d)
    ensures exists u :: UsedBy(cs, after, u, d)
  {
    if Reachable(cs[source].docs[t], cs[source].defs, d) {
      assert UsedBy(cs, after, t, d);
    } else {
      var u :| UsedBy(cs, moved, u, d);
      assert UsedBy(cs, after, u, d);
    }
  }

  lemma ClashFound(cs: Contracts, ids: map<string, string>, moved: map<string, string>, all: map<string, string>, meta: Text, t: string, d: string)
    requires MetaRight(cs, ids, moved, meta) && d in meta.defs
    requires Extends(moved, all)
    requires UsedBy(cs, all, t, d) && all[t] in ids && d in cs[all[t]].defs
    requires meta.defs[d] != NameSource(cs[all[t]].defs[d], ids[all[t]])
    ensures Clashing(cs, ids, all)
  {
    var u :| UsedBy(cs, moved, u, d);
    assert DefRight(cs, ids, moved[u], meta, d);
    assert Clash(cs, ids, all, t, u, d);
  }

  predicate Holding(cs: Contracts, moved: map<string, string>, current: Contracts) {
    current.Keys == cs.Keys && forall n | n in cs :: current[n] == Text(Remaining(cs, moved, n), cs[n].defs)
  }

  /** What the moves have made of the contracts after the first `i`. */
  ghost predicate Progress(cs: Contracts, ids: map<string, string>, moves: seq<Move>, i: nat, current: Contracts, meta: Text,
                           moved: map<string, string>)
    requires WellNamed(cs, ids, moves) && i <= |moves|
  {
    moved == MovedBy(cs, moves, i) && Holding(cs, moved, current) && MetaRight(cs, ids, moved, meta)
  }

  lemma NothingMovedYet(cs: Contracts, ids: map<string, string>, moves: seq<Move>)
    requires WellNamed(cs, ids, moves)
    ensures Progress(cs, ids, moves, 0, cs, Text(map[], map[]), map[])
  {
    assert forall n | n in cs :: Remaining(cs, map[], n) == cs[n].docs;
  }

  method MoveTypes(cs: Contracts, ids: map<string, string>, moves: seq<Move>)
    returns (ok: bool, current: Contracts, meta: Text, moved: map<string, string>)
    requires WellNamed(cs, ids, moves)
    ensures ok ==> Progress(cs, ids, moves, |moves|, current, meta, moved)
    ensures !ok ==> Undefined(cs, MovedBy(cs, moves, |moves|)) || Clashing(cs, ids, MovedBy(cs, moves, |moves|))
  {
    current, meta, moved := cs, Text(map[], map[]), map[];
    NothingMovedYet(cs, ids, moves);
    for i := 0 to |moves|
      invariant Progress(cs, ids, moves, i, current, meta, moved)
    {
      var source, t := moves[i].source, moves[i].docType;
      if t in current[source].docs {
        StillThere(cs, ids, moves, i, current, meta, moved);
        var defs := JoinDefs(cs, ids, moves, i, meta, current[source]);
        if defs.None? {
          return false, current, meta, moved;
        }
        MoveStep(cs, ids, moves, i, current, meta, moved, defs.value);
        meta := Text(meta.docs[t := NameSource(current[source].docs[t], ids[source])], defs.value);
        current := current[source := Text(current[source].docs - {t}, current[source].defs)];
        moved := moved[t := source];
      } else {
        SkipStep(cs, ids, moves, i, current, meta, moved);
      }
    }
    return true, current, meta, moved;
  }

  lemma StillThere(cs: Contracts, ids: map<string, string>, moves: seq<Move>, i: nat, current: Contracts, meta: Text, moved: map<string, string>)
    requires WellNamed(cs, ids, moves) && i < |moves| && Progress(cs, ids, moves, i, current, meta, moved)
    requires moves[i].docType in current[moves[i].source].docs
    ensures var c := cs[moves[i].source];
      && moves[i].docType in c.docs && current[moves[i].source].defs == c.defs
      && current[moves[i].source].docs[moves[i].docType] == c.docs[moves[i].docType]
  {
  }

  lemma SkipStep(cs: Contracts, ids: map<string, string>, moves: seq<Move>, i: nat, current: Contracts, meta: Text, moved: map<string, string>)
    requires WellNamed(cs, ids, moves) && i < |moves| && Progress(cs, ids, moves, i, current, meta, moved)
    requires moves[i].docType !in current[moves[i].source].docs
    ensures Progress(cs, ids, moves, i + 1, current, meta, moved)
  {
    FreshType(cs, ids, moves, i, i);
  }

  lemma MoveStep(cs: Contracts, ids: map<string, string>, moves: seq<Move>, i: nat, current: Contracts, meta: Text, moved: map<string, string>,
                 defs: Defs)
    requires WellNamed(cs, ids, moves) && i < |moves| && Progress(cs, ids, moves, i, current, meta, moved)
    requires var source, t := moves[i].source, moves[i].docType;
      && t in current[source].docs && t in cs[source].docs && current[source].docs[t] == cs[source].docs[t]
      && DefsJoined(cs, ids, meta, source, t, defs)
    ensures var source, t := moves[i].source, moves[i].docType;
      Progress(cs, ids, moves, i + 1,
               current[source := Text(current[source].docs - {t}, current[source].defs)],
               Text(meta.docs[t := NameSource(current[source].docs[t], ids[source])], defs),
               moved[t := source])
  {
    FreshType(cs, ids, moves, i, i);
    MetaStep(cs, ids, moved, meta, moves[i].source, moves[i].docType, defs);
    HoldingStep(cs, moved, current, moves[i].source, moves[i].docType);
  }

  /** Copy the definitions the type of move `i` uses, its source named, into the new contract. */
  method JoinDefs(ghost cs: Contracts, ids: map<string, string>, moves: seq<Move>, i: nat, meta: Text, c: Text) returns (r: Option<Defs>)
    requires WellNamed(cs, ids, moves) && i < |moves| && MetaRight(cs, ids, MovedBy(cs, moves, i), meta)
    requires moves[i].docType in c.docs && moves[i].docType in cs[moves[i].source].docs
    requires c.docs[moves[i].docType] == cs[moves[i].source].docs[moves[i].docType] && c.defs == cs[moves[i].source].defs
    ensures r.Some? ==> DefsJoined(cs, ids, meta, moves[i].source, moves[i].docType, r.value)
    ensures r.None? ==> Undefined(cs, MovedBy(cs, moves, |moves|)) || Clashing(cs, ids, MovedBy(cs, moves, |moves|))
  {
    var t := moves[i].docType;
    var used := DefsUsed(c.docs[t], c.defs);
    if used.None? {
      MissingFound(cs, ids, moves, i);
      return None;
    }
    r := AddDefs(meta.defs, c.defs, used.value, ids[moves[i].source]);
    if r.None? {
      RefusedMove(cs, ids, moves, i, meta, used.value);
    }
  }

  lemma {:induction false} MovedHere(cs: Contracts, ids: map<string, string>, moves: seq<Move>, i: nat)
    requires WellNamed(cs, ids, moves) && i < |moves| && moves[i].docType in cs[moves[i].source].docs
    ensures var all := MovedBy(cs, moves, |moves|); moves[i].docType in all && all[moves[i].docType] == moves[i].source
  {
    MovedGrows(cs, ids, moves, i + 1, |moves|);
    assert MovedBy(cs, moves, i + 1)[moves[i].docType] == moves[i].source;
  }

  lemma {:induction false} MissingFound(cs: Contracts, ids: map<string, string>, moves: seq<Move>, i: nat)
    requires WellNamed(cs, ids, moves) && i < |moves| && moves[i].docType in cs[moves[i].source].docs
    requires exists d :: d !in cs[moves[i].source].defs && Reachable(cs[moves[i].source].docs[moves[i].docType], cs[moves[i].source].defs, d)
    ensures Undefined(cs, MovedBy(cs, moves, |moves|))
  {
    var c := cs[moves[i].source];
    var d :| d !in c.defs && Reachable(c.docs[moves[i].docType], c.defs, d);
    MovedHere(cs, ids, moves, i);
    assert UsedBy(cs, MovedBy(cs, moves, |moves|), moves[i].docType, d);
  }

  lemma {:induction false} RefusedMove(cs: Contracts, ids: map<string, string>, moves: seq<Move>, i: nat, meta: Text, used: set<string>)
    requires WellNamed(cs, ids, moves) && i < |moves| && moves[i].docType in cs[moves[i].source].docs
    requires MetaRight(cs, ids, MovedBy(cs, moves, i), meta)
    requires used <= cs[moves[i].source].defs.Keys
    requires forall d | d in used :: Reachable(cs[moves[i].source].docs[moves[i].docType], cs[moves[i].source].defs, d)
    requires exists d :: d in used && d in meta.defs && meta.defs[d] != NameSource(cs[moves[i].source].defs[d], ids[moves[i].source])
    ensures Clashing(cs, ids, MovedBy(cs, moves, |moves|))
  {
    var source, t := moves[i].source, moves[i].docType;
    var d :| d in used && d in meta.defs && meta.defs[d] != NameSource(cs[source].defs[d], ids[source]);
    var all := MovedBy(cs, moves, |moves|);
    MovedGrows(cs, ids, moves, i, |moves|);
    MovedHere(cs, ids, moves, i);
    ClashFound(cs, ids, MovedBy(cs, moves, i), all, meta, t, d);
  }

  lemma HoldingStep(cs: Contracts, moved: map<string, string>, current: Contracts, source: string, t: string)
    requires Holding(cs, moved, current) && source in cs && t !in moved
    ensures Holding(cs, moved[t := source], current[source := Text(current[source].docs - {t}, current[source].defs)])
  {
    var moved' := moved[t := source];
    forall n | n in cs ensures Remaining(cs, moved', n) == if n == source then Remaining(cs, moved, n) - {t} else Remaining(cs, moved, n) {
    }
  }

  // ----- Checking and pruning what stays -----

  method PruneAll(cs: Contracts, ids: map<string, string>, moved: map<string, string>, current: Contracts)
    returns (ok: bool, kept: Contracts)
    requires Holding(cs, moved, current)
    ensures ok ==> kept.Keys == cs.Keys && !Stranded(cs, ids, moved) && forall n | n in cs :: Pruned(cs, moved, n, kept[n])
    ensures !ok ==> Stranded(cs, ids, moved) || Undefined(cs, moved)
  {
    kept := map[];
    var todo := current.Keys;
    while todo != {}
      invariant todo <= cs.Keys && kept.Keys == cs.Keys - todo
      invariant forall n | n in kept :: Pruned(cs, moved, n, kept[n]) && !StrandedIn(cs, ids, moved, n)
      decreases todo
    {
      var n :| n in todo;
      var c := PruneOne(cs, ids, moved, n, current[n]);
      if c.None? {
        return false, kept;
      }
      kept := kept[n := c.value];
      todo := todo - {n};
    }
    return true, kept;
  }

  method PruneOne(ghost cs: Contracts, ids: map<string, string>, moved: map<string, string>, n: string, c: Text) returns (r: Option<Text>)
    requires n in cs && c == Text(Remaining(cs, moved, n), cs[n].defs)
    ensures r.Some? ==> Pruned(cs, moved, n, r.value) && !StrandedIn(cs, ids, moved, n)
    ensures r.None? ==> StrandedIn(cs, ids, moved, n) || Undefined(cs, moved)
  {
    if Strands(Obj(c.docs), n, ids, moved) || Strands(Obj(c.defs), n, ids, moved) {
      return None;
    }
    var used := DefsUsed(Obj(c.docs), c.defs);
    if used.None? {
      MissingLeft(cs, moved, n);
      return None;
    }
    return Some(Text(c.docs, map d | d in used.value :: c.defs[d]));
  }

  lemma MissingLeft(cs: Contracts, moved: map<string, string>, n: string)
    requires n in cs && exists d :: d !in cs[n].defs && Reachable(Obj(Remaining(cs, moved, n)), cs[n].defs, d)
    ensures Undefined(cs, moved)
  {
    var d :| d !in cs[n].defs && Reachable(Obj(Remaining(cs, moved, n)), cs[n].defs, d);
    assert LeftReaches(cs, moved, n, d);
  }

  /** The whole split, refused exactly for one of the three reasons above. */
  method SplitContracts(cs: Contracts, ids: map<string, string>, moves: seq<Move>) returns (r: Outcome)
    requires WellNamed(cs, ids, moves)
    ensures r.Split? ==> SplitRight(cs, ids, moves, r)
    ensures r.Refused? <==>
      var moved := MovedBy(cs, moves, |moves|); Undefined(cs, moved) || Clashing(cs, ids, moved) || Stranded(cs, ids, moved)
  {
    var ok, current, meta, moved := MoveTypes(cs, ids, moves);
    if !ok {
      return Refused;
    }
    var fine, kept := PruneAll(cs, ids, moved, current);
    if !fine {
      return Refused;
    }
    r := Split(kept, meta, moved);
    SplitHasNoCause(cs, ids, moves, r);
  }

  ghost predicate SplitRight(cs: Contracts, ids: map<string, string>, moves: seq<Move>, r: Outcome)
    requires WellNamed(cs, ids, moves)
  {
    && r.Split?
    && r.moved == MovedBy(cs, moves, |moves|)
    && MetaRight(cs, ids, r.moved, r.meta)
    && r.contracts.Keys == cs.Keys
    && (forall n | n in cs :: Pruned(cs, r.moved, n, r.contracts[n]))
    && !Stranded(cs, ids, r.moved)
  }

  lemma SplitHasNoCause(cs: Contracts, ids: map<string, string>, moves: seq<Move>, r: Outcome)
    requires WellNamed(cs, ids, moves) && SplitRight(cs, ids, moves, r)
    ensures !Undefined(cs, r.moved) && !Clashing(cs, ids, r.moved) && !Stranded(cs, ids, r.moved)
  {
    forall t, d | UsedBy(cs, r.moved, t, d) ensures d in cs[r.moved[t]].defs {
      assert DefRight(cs, ids, r.moved[t], r.meta, d);
    }
    forall n, d | LeftReaches(cs, r.moved, n, d) ensures d in cs[n].defs {
      assert Pruned(cs, r.moved, n, r.contracts[n]);
    }
    forall t, u, d | UsedBy(cs, r.moved, t, d) && UsedBy(cs, r.moved, u, d) ensures !Clash(cs, ids, r.moved, t, u, d) {
      assert DefRight(cs, ids, r.moved[t], r.meta, d) && DefRight(cs, ids, r.moved[u], r.meta, d);
    }
  }

  // ----- What the split keeps -----

  /** Every `$ref` of the contract names a definition it has. */
  predicate SelfContained(c: Text) {
    && (forall t | t in c.docs :: RefsIn(c.docs[t]) <= c.defs.Keys)
    && (forall d | d in c.defs :: RefsIn(c.defs[d]) <= c.defs.Keys)
  }

  /** Every definition of the contract is reached from its document types. */
  ghost predicate NothingUnused(c: Text) {
    forall d | d in c.defs :: Reachable(Obj(c.docs), c.defs, d)
  }

  lemma {:induction false} KeptIsSelfContained(cs: Contracts, moved: map<string, string>, n: string, c: Text)
    requires Pruned(cs, moved, n, c)
    ensures SelfContained(c)
  {
    forall t, name | t in c.docs && name in RefsIn(c.docs[t]) ensures name in c.defs {
      FirstIsReachable(Obj(c.docs), cs[n].defs, name);
    }
    forall d, name | d in c.defs && name in RefsIn(c.defs[d]) ensures name in c.defs {
      NextIsReachable(Obj(c.docs), cs[n].defs, d, name);
    }
  }

  /** A chain through `from` is a chain through `to` when `to` has the same references along it. */
  lemma {:induction false} ChainCarries(root: Json, from: Defs, to: Defs, other: Json, path: seq<string>)
    requires Chain(root, from, path) && RefsIn(root) <= RefsIn(other)
    requires forall i | 0 <= i < |path| - 1 :: path[i] in to && path[i] in from && RefsIn(to[path[i]]) == RefsIn(from[path[i]])
    ensures Chain(other, to, path)
  {
    forall i | 0 < i < |path| ensures Step(to, path, i) {
      assert Step(from, path, i);
      assert path[i - 1] in to;
    }
  }

  lemma {:induction false} PrefixReachable(root: Json, defs: Defs, path: seq<string>, i: nat)
    requires Chain(root, defs, path) && i < |path|
    ensures Reachable(root, defs, path[i])
  {
    if i == 0 {
      FirstIsReachable(root, defs, path[0]);
    } else {
      PrefixReachable(root, defs, path, i - 1);
      assert Step(defs, path, i);
      NextIsReachable(root, defs, path[i - 1], path[i]);
    }
  }

  lemma {:induction false} KeptHasNothingUnused(cs: Contracts, moved: map<string, string>, n: string, c: Text)
    requires Pruned(cs, moved, n, c)
    ensures NothingUnused(c)
  {
    var root := Obj(c.docs);
    forall d | d in c.defs ensures Reachable(root, c.defs, d) {
      var path: seq<string> :| Chain(root, cs[n].defs, path) && path[|path| - 1] == d;
      forall i | 0 <= i < |path| - 1 ensures path[i] in c.defs {
        PrefixReachable(root, cs[n].defs, path, i);
      }
      ChainCarries(root, cs[n].defs, c.defs, root, path);
    }
  }

  lemma {:induction false} MetaIsSelfContained(cs: Contracts, ids: map<string, string>, moved: map<string, string>, meta: Text)
    requires MetaRight(cs, ids, moved, meta)
    ensures SelfContained(meta)
  {
    forall t, name | t in meta.docs && name in RefsIn(meta.docs[t]) ensures name in meta.defs {
      assert DocRight(cs, ids, moved, meta, t);
      NamingKeepsRefs(cs[moved[t]].docs[t], ids[moved[t]]);
      FirstIsReachable(cs[moved[t]].docs[t], cs[moved[t]].defs, name);
      assert UsedBy(cs, moved, t, name);
      assert DefRight(cs, ids, moved[t], meta, name);
    }
    forall d, name | d in meta.defs && name in RefsIn(meta.defs[d]) ensures name in meta.defs {
      var t :| UsedBy(cs, moved, t, d);
      assert DefRight(cs, ids, moved[t], meta, d);
      NamingKeepsRefs(cs[moved[t]].defs[d], ids[moved[t]]);
      NextIsReachable(cs[moved[t]].docs[t], cs[moved[t]].defs, d, name);
      assert UsedBy(cs, moved, t, name);
      assert DefRight(cs, ids, moved[t], meta, name);
    }
  }

  lemma {:induction false} MetaHasNothingUnused(cs: Contracts, ids: map<string, string>, moved: map<string, string>, meta: Text)
    requires MetaRight(cs, ids, moved, meta)
    ensures NothingUnused(meta)
  {
    forall d | d in meta.defs ensures Reachable(Obj(meta.docs), meta.defs, d) {
      var t :| UsedBy(cs, moved, t, d);
      MovedChain(cs, ids, moved, meta, t, d);
      PartReaches(meta.docs, t, meta.defs, d);
    }
  }

  lemma MovedChain(cs: Contracts, ids: map<string, string>, moved: map<string, string>, meta: Text, t: string, d: string)
    requires MetaRight(cs, ids, moved, meta) && UsedBy(cs, moved, t, d)
    ensures t in meta.docs && Reachable(meta.docs[t], meta.defs, d)
  {
    assert DocRight(cs, ids, moved, meta, t);
    var root, defs, id := cs[moved[t]].docs[t], cs[moved[t]].defs, ids[moved[t]];
    var path: seq<string> :| Chain(root, defs, path) && path[|path| - 1] == d;
    NamingKeepsRefs(root, id);
    forall i | 0 <= i < |path| - 1
      ensures path[i] in meta.defs && path[i] in defs && RefsIn(meta.defs[path[i]]) == RefsIn(defs[path[i]])
    {
      PrefixReachable(root, defs, path, i);
      assert UsedBy(cs, moved, t, path[i]);
      assert DefRight(cs, ids, moved[t], meta, path[i]);
      NamingKeepsRefs(defs[path[i]], id);
    }
    ChainCarries(root, defs, meta.defs, meta.docs[t], path);
    assert Chain(meta.docs[t], meta.defs, path);
  }

  /** After a split every `$ref` of every contract resolves in its own contract, and no definition is
      left that the contract's types do not reach. */
  lemma SplitLeavesContractsWhole(cs: Contracts, ids: map<string, string>, moves: seq<Move>, r: Outcome)
    requires WellNamed(cs, ids, moves) && SplitRight(cs, ids, moves, r)
    ensures SelfContained(r.meta) && NothingUnused(r.meta)
    ensures forall n | n in r.contracts :: SelfContained(r.contracts[n]) && NothingUnused(r.contracts[n])
  {
    MetaIsSelfContained(cs, ids, r.moved, r.meta);
    MetaHasNothingUnused(cs, ids, r.moved, r.meta);
    forall n | n in r.contracts ensures SelfContained(r.contracts[n]) && NothingUnused(r.contracts[n]) {
      KeptIsSelfContained(cs, r.moved, n, r.contracts[n]);
      KeptHasNothingUnused(cs, r.moved, n, r.contracts[n]);
    }
  }

  /** A moved type and the definitions it uses refer, from the new contract, to exactly the contracts
      and types they referred to from the old one. */
  lemma MovedReferencesKeepTheirTargets(cs: Contracts, ids: map<string, string>, moves: seq<Move>, r: Outcome, own: string)
    requires WellNamed(cs, ids, moves) && SplitRight(cs, ids, moves, r)
    ensures forall t | t in r.moved ::
      && DocRight(cs, ids, r.moved, r.meta, t)
      && Targets(r.meta.docs[t], own) == Targets(cs[r.moved[t]].docs[t], ids[r.moved[t]])
    ensures forall t, d | UsedBy(cs, r.moved, t, d) ::
      && DefRight(cs, ids, r.moved[t], r.meta, d)
      && Targets(r.meta.defs[d], own) == Targets(cs[r.moved[t]].defs[d], ids[r.moved[t]])
  {
    forall t | t in r.moved
      ensures DocRight(cs, ids, r.moved, r.meta, t) && Targets(r.meta.docs[t], own) == Targets(cs[r.moved[t]].docs[t], ids[r.moved[t]])
    {
      assert DocRight(cs, ids, r.moved, r.meta, t);
      NamingKeepsTargets(cs[r.moved[t]].docs[t], ids[r.moved[t]], own);
    }
    forall t, d | UsedBy(cs, r.moved, t, d)
      ensures DefRight(cs, ids, r.moved[t], r.meta, d) && Targets(r.meta.defs[d], own) == Targets(cs[r.moved[t]].defs[d], ids[r.moved[t]])
    {
      assert DefRight(cs, ids, r.moved[t], r.meta, d);
      NamingKeepsTargets(cs[r.moved[t]].defs[d], ids[r.moved[t]], own);
    }
  }

  // ----- No reference is left without its type -----

  predicate Gone(ids: map<string, string>, moved: map<string, string>, x: Target) {
    x.docType in moved && moved[x.docType] in ids && ids[moved[x.docType]] == x.contract
  }

  predicate Exists(cs: Contracts, ids: map<string, string>, x: Target) {
    exists n | n in cs && n in ids :: ids[n] == x.contract && x.docType in cs[n].docs
  }

  /** A tree the check lets through names no type that is gone. */
  lemma {:induction false} UnstrandedNamesNothingGone(node: Json, name: string, ids: map<string, string>, moved: map<string, string>, x: Target)
    requires name in ids && (forall a, b | a in ids && b in ids :: ids[a] == ids[b] ==> a == b)
    requires !Strands(node, name, ids, moved) && x in Targets(node, ids[name])
    ensures !Gone(ids, moved, x)
  {
    match node
    case Obj(m) =>
      if x in OwnTarget(m, ids[name]) {
        assert x.docType in moved ==> !PointsTo(m, name, ids, moved[x.docType]);
      } else {
        var k :| k in m && x in Targets(m[k], ids[name]);
        assert !Strands(m[k], name, ids, moved);
        UnstrandedNamesNothingGone(m[k], name, ids, moved, x);
      }
    case Arr(xs) =>
      var i :| 0 <= i < |xs| && x in Targets(xs[i], ids[name]);
      UnstrandedNamesNothingGone(xs[i], name, ids, moved, x);
  }

  lemma GoneOrThere(cs: Contracts, ids: map<string, string>, moves: seq<Move>, r: Outcome, x: Target)
    requires WellNamed(cs, ids, moves) && SplitRight(cs, ids, moves, r) && Exists(cs, ids, x)
    ensures Exists(r.contracts, ids, x) <==> !Gone(ids, r.moved, x)
  {
    var n :| n in cs && n in ids && ids[n] == x.contract && x.docType in cs[n].docs;
    assert Pruned(cs, r.moved, n, r.contracts[n]);
    assert x.docType in Remaining(cs, r.moved, n) <==> !Gone(ids, r.moved, x);
    if Exists(r.contracts, ids, x) {
      var m :| m in r.contracts && m in ids && ids[m] == x.contract && x.docType in r.contracts[m].docs;
      assert m == n;
    }
  }

  /** Every type a contract that stays refers to is still where it was. */
  lemma StayingReferencesStand(cs: Contracts, ids: map<string, string>, moves: seq<Move>, r: Outcome, n: string, x: Target)
    requires WellNamed(cs, ids, moves) && SplitRight(cs, ids, moves, r) && n in cs && Exists(cs, ids, x)
    requires x in Targets(Obj(r.contracts[n].docs), ids[n]) || x in Targets(Obj(cs[n].defs), ids[n])
    ensures Exists(r.contracts, ids, x)
  {
    assert Pruned(cs, r.moved, n, r.contracts[n]);
    assert !StrandedIn(cs, ids, r.moved, n);
    if x in Targets(Obj(r.contracts[n].docs), ids[n]) {
      UnstrandedNamesNothingGone(Obj(r.contracts[n].docs), n, ids, r.moved, x);
    } else {
      UnstrandedNamesNothingGone(Obj(cs[n].defs), n, ids, r.moved, x);
    }
    GoneOrThere(cs, ids, moves, r, x);
  }

  /** The type or one of the definitions it uses refers to `x`. */
  ghost predicate MovedRefersTo(cs: Contracts, ids: map<string, string>, moved: map<string, string>, t: string, x: Target) {
    && t in moved && moved[t] in cs && moved[t] in ids && t in cs[moved[t]].docs
    && (|| x in Targets(cs[moved[t]].docs[t], ids[moved[t]])
        || exists d | UsedBy(cs, moved, t, d) && d in cs[moved[t]].defs :: x in Targets(cs[moved[t]].defs[d], ids[moved[t]]))
  }

  /** The check looks only at the contracts that stay. The types that moved keep every reference
      exactly when none of them refers to a moved type. */
  lemma {:induction false} MovedReferencesStandIff(cs: Contracts, ids: map<string, string>, moves: seq<Move>, r: Outcome)
    requires WellNamed(cs, ids, moves) && SplitRight(cs, ids, moves, r)
    ensures var moved := MovedBy(cs, moves, |moves|);
      (forall t, x | MovedRefersTo(cs, ids, moved, t, x) && Exists(cs, ids, x) :: Exists(r.contracts, ids, x)) <==>
      (forall t, x | MovedRefersTo(cs, ids, moved, t, x) :: !Gone(ids, moved, x))
  {
    forall t, x | MovedRefersTo(cs, ids, r.moved, t, x) ensures Exists(cs, ids, x) ==> (Exists(r.contracts, ids, x) <==> !Gone(ids, r.moved, x)) {
      if Exists(cs, ids, x) {
        GoneOrThere(cs, ids, moves, r, x);
      }
    }
    forall x | Gone(ids, r.moved, x) ensures Exists(cs, ids, x) {
      assert DocRight(cs, ids, r.moved, r.meta, x.docType);
    }
  }

  // ----- A split that loses a referent -----

  /** A document type that refers to the type `b` of its own contract. */
  function Referring(b: string): (r: Json) {
    Obj(map["type" := Str("permanentDocument"), "documentType" := Str(b)])
  }

  lemma {:induction false} NoRefsInside(b: string, id: string)
    ensures RefsIn(Referring(b)) == {} && RefsIn(Obj(map[])) == {}
    ensures Targets(Referring(b), id) == {Target(id, b)}
  {
    var m := Referring(b).members;
    assert forall k | k in m :: m[k].Str?;
    assert OwnTarget(m, id) == {Target(id, b)};
  }

  lemma {:induction false} UnreachedFrom(root: Json, d: string)
    requires RefsIn(root) == {}
    ensures !Reachable(root, map[], d)
  {
  }

  function TwoTypes(c: string, a: string, b: string): (r: Contracts) {
    map[c := Text(map[a := Referring(b), b := Obj(map[])], map[])]
  }

  function BothMoved(c: string, id: string, a: string, b: string): (r: Outcome) {
    Split(map[c := Text(map[], map[])], Text(map[a := NameSource(Referring(b), id), b := NameSource(Obj(map[]), id)], map[]), map[a := c, b := c])
  }

  lemma MetaHoldsBoth(c: string, id: string, a: string, b: string)
    requires a != b
    ensures var r := BothMoved(c, id, a, b); MetaRight(TwoTypes(c, a, b), map[c := id], r.moved, r.meta)
  {
    var cs, r := TwoTypes(c, a, b), BothMoved(c, id, a, b);
    NoRefsInside(b, id);
    forall t, d ensures !UsedBy(cs, r.moved, t, d) {
      if t in r.moved { UnreachedFrom(cs[c].docs[t], d); }
    }
  }

  /** One contract, two of its types moved, one naming the other: the split goes through, and the type
      the moved one names is gone from the contract it names. */
  lemma SplitLosesReferent(c: string, id: string, a: string, b: string)
    requires a != b
    ensures var cs, ids, moves, r := TwoTypes(c, a, b), map[c := id], [Move(c, a), Move(c, b)], BothMoved(c, id, a, b);
      && WellNamed(cs, ids, moves) && SplitRight(cs, ids, moves, r)
      && MovedRefersTo(cs, ids, r.moved, a, Target(id, b))
      && Exists(cs, ids, Target(id, b)) && !Exists(r.contracts, ids, Target(id, b))
  {
    BothSplit(c, id, a, b);
    ReferentLost(c, id, a, b);
  }

  lemma BothSplit(c: string, id: string, a: string, b: string)
    requires a != b
    ensures var cs, ids, moves, r := TwoTypes(c, a, b), map[c := id], [Move(c, a), Move(c, b)], BothMoved(c, id, a, b);
      WellNamed(cs, ids, moves) && SplitRight(cs, ids, moves, r)
  {
    var cs, ids, moves, r := TwoTypes(c, a, b), map[c := id], [Move(c, a), Move(c, b)], BothMoved(c, id, a, b);
    BothMove(cs, c, a, b, moves);
    MetaHoldsBoth(c, id, a, b);
    NothingStays(cs, c, a, b, r.moved, ids);
    OneContract(cs, ids, moves, r, c);
  }

  lemma {:induction false} OneContract(cs: Contracts, ids: map<string, string>, moves: seq<Move>, r: Outcome, c: string)
    requires WellNamed(cs, ids, moves) && cs.Keys == {c} && r.Split? && r.moved == MovedBy(cs, moves, |moves|)
    requires MetaRight(cs, ids, r.moved, r.meta) && r.contracts.Keys == {c} && Pruned(cs, r.moved, c, r.contracts[c])
    requires !Stranded(cs, ids, r.moved)
    ensures SplitRight(cs, ids, moves, r)
  {
  }

  lemma ReferentLost(c: string, id: string, a: string, b: string)
    requires a != b
    ensures var cs, ids, r := TwoTypes(c, a, b), map[c := id], BothMoved(c, id, a, b);
      && MovedRefersTo(cs, ids, r.moved, a, Target(id, b))
      && Exists(cs, ids, Target(id, b)) && !Exists(r.contracts, ids, Target(id, b))
  {
    var cs, ids := TwoTypes(c, a, b), map[c := id];
    NoRefsInside(b, id);
    assert cs[c].docs[a] == Referring(b);
    assert c in cs && c in ids && ids[c] == id && b in cs[c].docs;
  }

  lemma {:induction false} BothMove(cs: Contracts, c: string, a: string, b: string, moves: seq<Move>)
    requires c in cs && a in cs[c].docs && b in cs[c].docs && a != b && moves == [Move(c, a), Move(c, b)]
    ensures MovedBy(cs, moves, |moves|) == map[a := c, b := c]
  {
    assert MovedBy(cs, moves, 0) == map[];
    assert MovedBy(cs, moves, 1) == map[a := c];
  }

  lemma NothingStays(cs: Contracts, c: string, a: string, b: string, moved: map<string, string>, ids: map<string, string>)
    requires c in cs && cs.Keys == {c} && cs[c].docs.Keys == {a, b} && cs[c].defs == map[] && moved == map[a := c, b := c]
    ensures Pruned(cs, moved, c, Text(map[], map[])) && !Stranded(cs, ids, moved)
  {
    assert Remaining(cs, moved, c) == map[];
    assert RefsIn(Obj(map[])) == {};
    forall d ensures !Reachable(Obj(map[]), map[], d) {
      UnreachedFrom(Obj(map[]), d);
    }
    assert !StrandedIn(cs, ids, moved, c);
  }
}
