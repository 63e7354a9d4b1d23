/** The plugin that keeps provisional chunk hashes out of the minifier's input: before the minifier
    each hash is replaced by a placeholder that depends only on the chunk's name without its hash,
    after it the hash is put back. */
module StableMinifier {
  import opened HashTokens

  datatype Option<+T> = None | Some(value: T)

  /** An emitted file. `hashes` are its content hashes, in order. */
  datatype Asset = Asset(name: string, hashes: seq<string>, minimized: bool, source: string)

  /** A map in insertion order: hash to placeholder. */
  type Entries = seq<(string, string)>

  /** The first sixteen digits of the digest of a masked name and the hash's index. */
  type Digest = (string, nat) -> string

  ghost predicate HexDigest(digest: Digest) {
    forall name, i :: Hex16(digest(name, i))
  }

  // ---- the first pass: placeholders ---------------------------------------------------------------------

  const MaskText: string := "[contenthash]"

  /** Every occurrence of the hash in the name, left to right, replaced by the mask. */
  function Mask(name: string, hash: string): string
    requires hash != []
    decreases |name|
  {
    if name == [] then []
    else if |hash| <= |name| && name[..|hash|] == hash then MaskText + Mask(name[|hash|..], hash)
    else [name[0]] + Mask(name[1..], hash)
  }

  function Find(ps: Entries, hash: string): Option<string> {
    if ps == [] then None
    else if ps[|ps| - 1].0 == hash then Some(ps[|ps| - 1].1)
    else Find(ps[..|ps| - 1], hash)
  }

  predicate HasKey(ps: Entries, hash: string) {
    exists k | 0 <= k < |ps| :: ps[k].0 == hash
  }

  lemma {:induction false} FindFinds(ps: Entries, hash: string)
    ensures HasKey(ps, hash) <==> Find(ps, hash).Some?
    ensures Find(ps, hash).Some? ==> (hash, Find(ps, hash).value) in ps
  {
    if ps != [] {
      var front, last := ps[..|ps| - 1], ps[|ps| - 1];
      FindFinds(front, hash);
      if HasKey(front, hash) {
        var k :| 0 <= k < |front| && front[k].0 == hash;
        assert ps[k] == front[k];
      }
      if last.0 == hash { assert ps[|ps| - 1].0 == hash; }
      if HasKey(ps, hash) && last.0 != hash {
        var k :| 0 <= k < |ps| && ps[k].0 == hash;
        assert front[k] == ps[k];
      }
    }
  }

  /** One content hash of one asset: a hash met before keeps its placeholder. */
  function AddHash(ps: Entries, name: string, hash: string, i: nat, digest: Digest): Entries {
    if Hex16(hash) && !HasKey(ps, hash) then ps + [(hash, digest(Mask(name, hash), i))] else ps
  }

  function AddAsset(ps: Entries, name: string, hashes: seq<string>, digest: Digest): Entries {
    if hashes == [] then ps
    else AddHash(AddAsset(ps, name, hashes[..|hashes| - 1], digest), name, hashes[|hashes| - 1], |hashes| - 1, digest)
  }

  function PlaceholdersOf(assets: seq<Asset>, digest: Digest): Entries {
    if assets == [] then []
    else
      var last := assets[|assets| - 1];
      AddAsset(PlaceholdersOf(assets[..|assets| - 1], digest), last.name, last.hashes, digest)
  }

  /** The inverse map, filled in order: the first hash to claim a placeholder keeps it. */
  function RestoreOf(ps: Entries): map<string, string> {
    if ps == [] then map[]
    else
      var m, (hash, p) := RestoreOf(ps[..|ps| - 1]), ps[|ps| - 1];
      if p in m && m[p] != hash then m else m[p := hash]
  }

  /** The pairs of hashes that would share a placeholder, each of which refuses the build. */
  function Clashes(ps: Entries): seq<(string, string)> {
    if ps == [] then []
    else
      var m, (hash, p) := RestoreOf(ps[..|ps| - 1]), ps[|ps| - 1];
      Clashes(ps[..|ps| - 1]) + if p in m && m[p] != hash then [(m[p], hash)] else []
  }

  // ---- what is put in and what is put back -----------------------------------------------------------------

  function Placed(ps: Entries, t: string): string {
    var p := Find(ps, t);
    if p.Some? then p.value else t
  }

  function PutBack(restore: map<string, string>, t: string): string {
    if t in restore then restore[t] else t
  }

  function Substitute(ps: Entries, code: string): string {
    Rewrite(code, t => Placed(ps, t))
  }

  function Restore(restore: map<string, string>, code: string): string {
    Rewrite(code, t => PutBack(restore, t))
  }

  predicate OccursAt(p: string, s: string, i: int) {
    0 <= i <= |s| - |p| && s[i..i + |p|] == p
  }

  predicate Occurs(p: string, s: string) {
    exists i | 0 <= i <= |s| :: OccursAt(p, s, i)
  }

  // ---- facts about the two maps -------------------------------------------------------------------------------

  predicate DistinctKeys(ps: Entries) {
    forall i, j | 0 <= i < j < |ps| :: ps[i].0 != ps[j].0
  }

  predicate HexEntries(ps: Entries) {
    forall k | 0 <= k < |ps| :: Hex16(ps[k].0) && Hex16(ps[k].1)
  }

  lemma {:induction false} AddAssetShape(ps: Entries, name: string, hashes: seq<string>, digest: Digest)
    requires DistinctKeys(ps) && HexEntries(ps) && HexDigest(digest)
    ensures DistinctKeys(AddAsset(ps, name, hashes, digest)) && HexEntries(AddAsset(ps, name, hashes, digest))
  {
    if hashes != [] {
      AddAssetShape(ps, name, hashes[..|hashes| - 1], digest);
    }
  }

  lemma {:induction false} PlaceholdersShape(assets: seq<Asset>, digest: Digest)
    requires HexDigest(digest)
    ensures DistinctKeys(PlaceholdersOf(assets, digest)) && HexEntries(PlaceholdersOf(assets, digest))
  {
    if assets != [] {
      PlaceholdersShape(assets[..|assets| - 1], digest);
      var last := assets[|assets| - 1];
      AddAssetShape(PlaceholdersOf(assets[..|assets| - 1], digest), last.name, last.hashes, digest);
    }
  }

  /** What the restore map holds: only pairs that were entered, and every placeholder that was. */
  lemma {:induction false} RestoreHolds(ps: Entries)
    ensures forall p | p in RestoreOf(ps) :: (RestoreOf(ps)[p], p) in ps
    ensures forall k | 0 <= k < |ps| :: ps[k].1 in RestoreOf(ps)
  {
    if ps != [] {
      var front, last := ps[..|ps| - 1], ps[|ps| - 1];
      RestoreHolds(front);
      assert last in ps;
      forall p | p in RestoreOf(ps) ensures (RestoreOf(ps)[p], p) in ps {
        if p in RestoreOf(front) && RestoreOf(ps)[p] == RestoreOf(front)[p] {
          assert (RestoreOf(front)[p], p) in front;
        } else {
          assert (RestoreOf(ps)[p], p) == last;
        }
      }
    }
  }

  /** With no clash, the restore map undoes every entry. */
  lemma {:induction false} NoClashInverts(ps: Entries)
    requires DistinctKeys(ps) && Clashes(ps) == []
    ensures forall k | 0 <= k < |ps| :: ps[k].1 in RestoreOf(ps) && RestoreOf(ps)[ps[k].1] == ps[k].0
  {
    if ps != [] {
      var front := ps[..|ps| - 1];
      NoClashInverts(front);
      assert forall k | 0 <= k < |front| :: front[k] == ps[k];
    }
  }

  /** With a clash, some hash is not put back. */
  lemma {:induction false} ClashLoses(ps: Entries) returns (k: nat)
    requires DistinctKeys(ps) && Clashes(ps) != []
    ensures k < |ps| && ps[k].1 in RestoreOf(ps) && RestoreOf(ps)[ps[k].1] != ps[k].0
  {
    var n := |ps| - 1;
    var front := ps[..n];
    if Clashes(front) != [] {
      k := ClashLoses(front);
      assert front[k] == ps[k];
      RestoreHolds(front);
      assert ps[n] !in front;
    } else {
      k := n;
    }
  }

  /** Finding a key of a distinct map finds its entry. */
  lemma {:induction false} FindAt(ps: Entries, k: nat)
    requires DistinctKeys(ps) && k < |ps|
    ensures Find(ps, ps[k].0) == Some(ps[k].1)
  {
    if k < |ps| - 1 {
      FindAt(ps[..|ps| - 1], k);
    }
  }

  lemma PlacedKeeps(ps: Entries)
    requires HexEntries(ps)
    ensures KeepsTokens(t => Placed(ps, t))
  {
    forall t | Hex16(t) ensures Hex16(Placed(ps, t)) { FindFinds(ps, t); }
  }

  lemma {:induction false} PutBackKeeps(ps: Entries)
    requires HexEntries(ps)
    ensures KeepsTokens(t => PutBack(RestoreOf(ps), t))
  {
    RestoreHolds(ps);
    forall t | Hex16(t) ensures Hex16(PutBack(RestoreOf(ps), t)) {
      if t in RestoreOf(ps) {
        var k :| 0 <= k < |ps| && ps[k] == (RestoreOf(ps)[t], t);
      }
    }
  }

  // ---- the round trip -------------------------------------------------------------------------------------------

  predicate IsPlaceholder(ps: Entries, t: string) {
    exists k | 0 <= k < |ps| :: ps[k].1 == t
  }

  lemma {:induction false} BackAndForth(ps: Entries, t: string)
    requires DistinctKeys(ps) && Clashes(ps) == []
    ensures PutBack(RestoreOf(ps), Placed(ps, t)) == t <==> HasKey(ps, t) || !IsPlaceholder(ps, t)
  {
    NoClashInverts(ps);
    RestoreHolds(ps);
    FindFinds(ps, t);
    assert t in RestoreOf(ps) ==> IsPlaceholder(ps, t);
    if HasKey(ps, t) {
      var k :| 0 <= k < |ps| && ps[k].0 == t;
      FindAt(ps, k);
    } else if IsPlaceholder(ps, t) {
      var k :| 0 <= k < |ps| && ps[k].1 == t;
      assert RestoreOf(ps)[t] == ps[k].0;
    }
  }

  /** When no clash is reported, a text comes back from substitution and restore exactly when none
      of its tokens is a placeholder without being a content hash. */
  lemma {:induction false} RoundTripIff(assets: seq<Asset>, digest: Digest, code: string)
    requires HexDigest(digest) && Clashes(PlaceholdersOf(assets, digest)) == []
    ensures var ps := PlaceholdersOf(assets, digest);
            Restore(RestoreOf(ps), Substitute(ps, code)) == code
            <==> forall t | t in Tokens(code) :: HasKey(ps, t) || !IsPlaceholder(ps, t)
  {
    var ps := PlaceholdersOf(assets, digest);
    PlaceholdersShape(assets, digest);
    PlacedKeeps(ps);
    PutBackKeeps(ps);
    var F: string -> string := t => Placed(ps, t);
    var G: string -> string := t => PutBack(RestoreOf(ps), t);
    var both: string -> string := t => G(F(t));
    RewriteTwice(code, F, G);
    assert KeepsTokens(both) by {
      forall t | Hex16(t) ensures Hex16(both(t)) { assert Hex16(F(t)); }
    }
    RewriteIsIdentity(code, both);
    forall t | t in Tokens(code)
      ensures both(t) == t <==> HasKey(ps, t) || !IsPlaceholder(ps, t)
    {
      BackAndForth(ps, t);
    }
  }

  /** A clash is reported exactly when some content hash would not be put back. */
  lemma {:induction false} ClashIffLost(assets: seq<Asset>, digest: Digest)
    requires HexDigest(digest)
    ensures var ps := PlaceholdersOf(assets, digest);
            Clashes(ps) == [] <==> forall k | 0 <= k < |ps| :: PutBack(RestoreOf(ps), Placed(ps, ps[k].0)) == ps[k].0
  {
    var ps := PlaceholdersOf(assets, digest);
    PlaceholdersShape(assets, digest);
    forall k | 0 <= k < |ps| ensures Placed(ps, ps[k].0) == ps[k].1 { FindAt(ps, k); }
    if Clashes(ps) == [] {
      NoClashInverts(ps);
    } else {
      var k := ClashLoses(ps);
      assert PutBack(RestoreOf(ps), Placed(ps, ps[k].0)) != ps[k].0;
    }
  }

  // ---- what the last check reports --------------------------------------------------------------------------------

  /** A placeholder is reported in the restored text, whatever the minifier made of it, exactly when the
      text it left has a token that is put back as that very placeholder, or holds the placeholder
      inside a longer run of hex digits. Never because the restore missed it. */
  lemma {:induction false} LeftoverIff(ps: Entries, code: string, p: string)
    requires HexEntries(ps) && p in RestoreOf(ps)
    ensures Occurs(p, Restore(RestoreOf(ps), code)) <==> IsPutBack(ps, code, p) || HeldInRun(code, p)
  {
    PlaceholderIsHex(ps, p);
    if Occurs(p, Restore(RestoreOf(ps), code)) {
      LeftoverHasCause(ps, code, p);
    }
    if IsPutBack(ps, code, p) {
      PutBackOccurs(ps, code, p);
    }
    if HeldInRun(code, p) {
      RunOccurs(ps, code, p);
    }
  }

  predicate IsPutBack(ps: Entries, code: string, p: string) {
    exists t | t in Tokens(code) :: t in RestoreOf(ps) && RestoreOf(ps)[t] == p
  }

  predicate HeldInRun(code: string, p: string) {
    exists i | 0 <= i <= |code| :: OccursAt(p, code, i) && !TokenAt(code, i)
  }

  lemma {:induction false} LeftoverHasCause(ps: Entries, code: string, p: string)
    requires HexEntries(ps) && p in RestoreOf(ps) && Hex16(p) && Occurs(p, Restore(RestoreOf(ps), code))
    ensures IsPutBack(ps, code, p) || HeldInRun(code, p)
  {
    var G: string -> string := t => PutBack(RestoreOf(ps), t);
    var restored := Rewrite(code, G);
    PutBackKeeps(ps);
    var i :| 0 <= i <= |restored| && OccursAt(p, restored, i);
    if TokenAt(restored, i) {
      MatchIsToken(restored, i);
      TokensRewritten(code, G);
      var k :| 0 <= k < |Tokens(code)| && G(Tokens(code)[k]) == p;
      assert Tokens(code)[k] in RestoreOf(ps);
    } else {
      RunsStay(code, G, i);
      assert OccursAt(p, code, i);
    }
  }

  lemma {:induction false} PutBackOccurs(ps: Entries, code: string, p: string)
    requires HexEntries(ps) && IsPutBack(ps, code, p)
    ensures Occurs(p, Restore(RestoreOf(ps), code))
  {
    var G: string -> string := t => PutBack(RestoreOf(ps), t);
    PutBackKeeps(ps);
    TokensRewritten(code, G);
    var t :| t in Tokens(code) && t in RestoreOf(ps) && RestoreOf(ps)[t] == p;
    var k :| 0 <= k < |Tokens(code)| && Tokens(code)[k] == t;
    assert Tokens(Rewrite(code, G))[k] == p;
    var i := TokenIsMatch(Rewrite(code, G), p);
    assert OccursAt(p, Rewrite(code, G), i);
  }

  lemma {:induction false} RunOccurs(ps: Entries, code: string, p: string)
    requires HexEntries(ps) && Hex16(p) && HeldInRun(code, p)
    ensures Occurs(p, Restore(RestoreOf(ps), code))
  {
    var G: string -> string := t => PutBack(RestoreOf(ps), t);
    PutBackKeeps(ps);
    var i :| 0 <= i <= |code| && OccursAt(p, code, i) && !TokenAt(code, i);
    RunsStay(code, G, i);
    assert OccursAt(p, Rewrite(code, G), i);
  }

  /** A source that comes back unharmed is reported all the same when it holds a content hash that is
      also some placeholder. */
  lemma {:induction false} RestoredHashIsReported(assets: seq<Asset>, digest: Digest, code: string, p: string)
    requires HexDigest(digest) && Clashes(PlaceholdersOf(assets, digest)) == []
    requires var ps := PlaceholdersOf(assets, digest);
      && HasKey(ps, p) && IsPlaceholder(ps, p) && p in Tokens(code)
      && forall t | t in Tokens(code) :: HasKey(ps, t) || !IsPlaceholder(ps, t)
    ensures var ps := PlaceholdersOf(assets, digest);
      var restored := Restore(RestoreOf(ps), Substitute(ps, code));
      restored == code && p in RestoreOf(ps) && Occurs(p, restored)
  {
    var ps := PlaceholdersOf(assets, digest);
    RoundTripIff(assets, digest, code);
    RestoreHolds(ps);
    var i := TokenIsMatch(code, p);
    assert OccursAt(p, code, i);
  }

  lemma {:induction false} PlaceholderIsHex(ps: Entries, p: string)
    requires HexEntries(ps) && p in RestoreOf(ps)
    ensures Hex16(p)
  {
    RestoreHolds(ps);
    var k :| 0 <= k < |ps| && ps[k] == (RestoreOf(ps)[p], p);
  }

  // ---- two words ----------------------------------------------------------------------------------------------------

  lemma {:induction false} TwoWords(a: string, b: string, F: string -> string)
    requires Hex16(a) && Hex16(b)
    ensures Tokens(a + " " + b) == [a, b] && Rewrite(a + " " + b, F) == F(a) + " " + F(b)
  {
    var s := a + " " + b;
    var rest := " " + b;
    WordLead(a, rest);
    assert s == a + rest;
    assert Lead(rest) == 1 && rest[1..] == b && rest[..1] == " ";
    OneToken(b, F);
    assert Tokens(rest) == [b] && Rewrite(rest, F) == " " + F(b);
  }

  lemma {:induction false} WordLead(a: string, rest: string)
    requires Hex16(a) && rest != [] && !Hex(rest[0])
    ensures Lead(a + rest) == 16 && (a + rest)[..16] == a && (a + rest)[16..] == rest
  {
    var s := a + rest;
    assert s[..16] == a && s[0] == a[0];
    RunLengthIs(s, 16);
  }

  lemma {:induction false} OneToken(t: string, F: string -> string)
    requires Hex16(t)
    ensures Rewrite(t, F) == F(t) && Tokens(t) == [t]
  {
    assert t[..16] == t;
    RunLengthIs(t, 16);
    assert Lead(t) == 16 && t[16..] == [];
    assert Rewrite(t[16..], F) == [];
  }

  // ---- two builds of one commit ---------------------------------------------------------------------------------

  /** Build `b` is build `a` with its content hashes renamed by `rho`: the same assets in the same
      order, whose names agree once their hashes are masked. */
  ghost predicate RenamedAsset(a: Asset, b: Asset, rho: string -> string) {
    && |a.hashes| == |b.hashes|
    && (forall i | 0 <= i < |a.hashes| :: RenamedHash(a.name, a.hashes[i], b.name, b.hashes[i], rho))
  }

  ghost predicate RenamedHash(nameA: string, hashA: string, nameB: string, hashB: string, rho: string -> string) {
    && (Hex16(hashA) <==> Hex16(hashB))
    && (Hex16(hashA) ==> hashB == rho(hashA) && Mask(nameA, hashA) == Mask(nameB, hashB))
  }

  ghost predicate Renamed(a: seq<Asset>, b: seq<Asset>, rho: string -> string) {
    && |a| == |b|
    && (forall k | 0 <= k < |a| :: RenamedAsset(a[k], b[k], rho))
  }

  /** The content hashes of the assets. */
  function HashesOf(assets: seq<Asset>): (r: set<string>) {
    set k, i | 0 <= k < |assets| && 0 <= i < |assets[k].hashes| :: assets[k].hashes[i]
  }

  ghost predicate InjectiveOn(hs: set<string>, rho: string -> string) {
    forall g, h | g in hs && h in hs :: rho(g) == rho(h) ==> g == h
  }

  predicate KeysIn(ps: Entries, hs: set<string>) {
    forall k | 0 <= k < |ps| :: ps[k].0 in hs
  }

  /** The same entries under renamed keys, with the same placeholders. */
  ghost predicate RenamedEntries(pa: Entries, pb: Entries, rho: string -> string, hs: set<string>) {
    && InjectiveOn(hs, rho) && KeysIn(pa, hs)
    && |pa| == |pb| && forall k | 0 <= k < |pa| :: pb[k] == (rho(pa[k].0), pa[k].1)
  }

  lemma RenamedKeys(pa: Entries, pb: Entries, rho: string -> string, hs: set<string>, h: string)
    requires RenamedEntries(pa, pb, rho, hs) && h in hs
    ensures HasKey(pa, h) <==> HasKey(pb, rho(h))
  {
    if HasKey(pa, h) {
      var k :| 0 <= k < |pa| && pa[k].0 == h;
      assert pb[k].0 == rho(h);
    }
    if HasKey(pb, rho(h)) {
      var k :| 0 <= k < |pb| && pb[k].0 == rho(h);
      assert pa[k].0 == h;
    }
  }

  lemma {:induction false} RenamedFind(pa: Entries, pb: Entries, rho: string -> string, hs: set<string>, h: string)
    requires RenamedEntries(pa, pb, rho, hs) && h in hs
    ensures Find(pa, h) == Find(pb, rho(h))
    decreases |pa|
  {
    if pa != [] {
      var n := |pa| - 1;
      assert pb[n] == (rho(pa[n].0), pa[n].1);
      RenamedFind(pa[..n], pb[..n], rho, hs, h);
    }
  }

  lemma {:induction false} RenamedAddAsset(pa: Entries, pb: Entries, a: Asset, b: Asset, n: nat, rho: string -> string, hs: set<string>,
                                           digest: Digest)
    requires RenamedEntries(pa, pb, rho, hs) && RenamedAsset(a, b, rho) && n <= |a.hashes|
    requires forall i | 0 <= i < |a.hashes| :: a.hashes[i] in hs
    ensures RenamedEntries(AddAsset(pa, a.name, a.hashes[..n], digest), AddAsset(pb, b.name, b.hashes[..n], digest), rho, hs)
    decreases n
  {
    if n > 0 {
      assert a.hashes[..n][..n - 1] == a.hashes[..n - 1] && b.hashes[..n][..n - 1] == b.hashes[..n - 1];
      RenamedAddAsset(pa, pb, a, b, n - 1, rho, hs, digest);
      assert RenamedHash(a.name, a.hashes[n - 1], b.name, b.hashes[n - 1], rho);
      RenamedKeys(AddAsset(pa, a.name, a.hashes[..n - 1], digest), AddAsset(pb, b.name, b.hashes[..n - 1], digest), rho, hs, a.hashes[n - 1]);
    }
  }

  lemma {:induction false} RenamedPlaceholders(a: seq<Asset>, b: seq<Asset>, rho: string -> string, hs: set<string>, digest: Digest)
    requires Renamed(a, b, rho) && InjectiveOn(hs, rho) && HashesOf(a) <= hs
    ensures RenamedEntries(PlaceholdersOf(a, digest), PlaceholdersOf(b, digest), rho, hs)
    decreases |a|
  {
    if a != [] {
      var n := |a| - 1;
      assert HashesOf(a[..n]) <= HashesOf(a);
      RenamedPlaceholders(a[..n], b[..n], rho, hs, digest);
      assert RenamedAsset(a[n], b[n], rho);
      assert a[n].hashes[..|a[n].hashes|] == a[n].hashes && b[n].hashes[..|b[n].hashes|] == b[n].hashes;
      assert forall i | 0 <= i < |a[n].hashes| :: a[n].hashes[i] in HashesOf(a);
      RenamedAddAsset(PlaceholdersOf(a[..n], digest), PlaceholdersOf(b[..n], digest), a[n], b[n], |a[n].hashes|, rho, hs, digest);
    }
  }

  /** A token of build `a`'s text as build `b` writes it: content hashes renamed, other words alone. */
  function RenamedToken(pa: Entries, rho: string -> string, t: string): string {
    if HasKey(pa, t) then rho(t) else t
  }

  /** Build `a`'s text as build `b` writes it. */
  function RenamedText(a: seq<Asset>, digest: Digest, rho: string -> string, code: string): string {
    Rewrite(code, t => RenamedToken(PlaceholdersOf(a, digest), rho, t))
  }

  /** No other word of build `a`'s text means anything to build `b`: the second build leaves alone every
      word that is no content hash of the first. */
  predicate NoCrossTalk(pa: Entries, pb: Entries, code: string) {
    forall t | t in Tokens(code) && !HasKey(pa, t) :: Placed(pb, t) == t
  }

  /** Two builds that differ only in their content hashes hand the minifier the same text exactly when
      the second leaves alone the words that are no content hash of the first. */
  lemma {:induction false} MinifierInputIsStableIff(a: seq<Asset>, b: seq<Asset>, rho: string -> string, digest: Digest, code: string)
    requires HexDigest(digest) && Renamed(a, b, rho) && InjectiveOn(HashesOf(a), rho)
    ensures var pa, pb := PlaceholdersOf(a, digest), PlaceholdersOf(b, digest);
      Substitute(pa, code) == Substitute(pb, RenamedText(a, digest, rho, code)) <==> NoCrossTalk(pa, pb, code)
  {
    var pa, pb := PlaceholdersOf(a, digest), PlaceholdersOf(b, digest);
    RenamedPlaceholders(a, b, rho, HashesOf(a), digest);
    PlaceholdersShape(a, digest);
    PlaceholdersShape(b, digest);
    PlacedKeeps(pa);
    PlacedKeeps(pb);
    var ren: string -> string := t => RenamedToken(pa, rho, t);
    var G: string -> string := t => Placed(pb, t);
    assert KeepsTokens(ren) by {
      forall t | Hex16(t) ensures Hex16(ren(t)) { RenamedIsHex(pa, pb, rho, HashesOf(a), t); }
    }
    RewriteTwice(code, ren, G);
    var both: string -> string := t => G(ren(t));
    assert KeepsTokens(both) by {
      forall t | Hex16(t) ensures Hex16(both(t)) { assert Hex16(ren(t)); }
    }
    forall t ensures Placed(pa, t) == both(t) <==> HasKey(pa, t) || Placed(pb, t) == t {
      TokenMeetsItself(pa, pb, rho, HashesOf(a), t);
    }
    RewriteAgreesIff(code, t => Placed(pa, t), both);
  }

  lemma {:induction false} TokenMeetsItself(pa: Entries, pb: Entries, rho: string -> string, hs: set<string>, t: string)
    requires RenamedEntries(pa, pb, rho, hs)
    ensures Placed(pa, t) == Placed(pb, RenamedToken(pa, rho, t)) <==> HasKey(pa, t) || Placed(pb, t) == t
  {
    FindFinds(pa, t);
    if HasKey(pa, t) {
      RenamedFind(pa, pb, rho, hs, t);
    }
  }

  lemma RenamedIsHex(pa: Entries, pb: Entries, rho: string -> string, hs: set<string>, t: string)
    requires RenamedEntries(pa, pb, rho, hs) && HexEntries(pb) && Hex16(t)
    ensures Hex16(RenamedToken(pa, rho, t))
  {
    if HasKey(pa, t) {
      var k :| 0 <= k < |pa| && pa[k].0 == t;
      assert pb[k].0 == rho(t);
    }
  }
}
