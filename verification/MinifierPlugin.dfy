/** The plugin as it runs: two passes over the compilation's assets, which it rewrites in place. */
module MinifierPlugin {
  import opened HashTokens
  import opened StableMinifier

  class StableMinifierInput {
    const digest: Digest
    const isJs: string -> bool

    /** The compilation's assets. */
    var assets: seq<Asset>
    /** placeholder -> provisional hash, and the assets that were rewritten */
    var restore: map<string, string>
    var touched: set<string>
    /** The errors pushed: hashes that would share a placeholder, and placeholders left in an asset. */
    var clashes: seq<(string, string)>
    var leftovers: set<(string, string)>

    constructor (assets: seq<Asset>, digest: Digest, isJs: string -> bool)
      ensures this.assets == assets && this.digest == digest && this.isJs == isJs
      ensures restore == map[] && touched == {} && clashes == [] && leftovers == {}
    {
      this.assets, this.digest, this.isJs := assets, digest, isJs;
      restore, touched, clashes, leftovers := map[], {}, [], {};
    }

    // ---- before the minifier ----------------------------------------------------------------------------

    method FillPlaceholders() returns (placeholders: Entries)
      ensures placeholders == PlaceholdersOf(assets, digest)
    {
      placeholders := [];
      for a := 0 to |assets|
        invariant placeholders == PlaceholdersOf(assets[..a], digest)
      {
        var asset := assets[a];
        ghost var before := placeholders;
        for i := 0 to |asset.hashes|
          invariant placeholders == AddAsset(before, asset.name, asset.hashes[..i], digest)
        {
          var hash := asset.hashes[i];
          assert asset.hashes[..i + 1][..i] == asset.hashes[..i];
          if Hex16(hash) && !HasKey(placeholders, hash) {
            placeholders := placeholders + [(hash, digest(Mask(asset.name, hash), i))];
          }
        }
        assert asset.hashes[..|asset.hashes|] == asset.hashes;
        assert assets[..a + 1][..a] == assets[..a];
      }
      assert assets[..|assets|] == assets;
    }

    method FillRestore(placeholders: Entries)
      requires restore == map[]
      modifies this`restore, this`clashes
      ensures restore == RestoreOf(placeholders)
      ensures clashes == old(clashes) + Clashes(placeholders)
    {
      for k := 0 to |placeholders|
        invariant restore == RestoreOf(placeholders[..k])
        invariant clashes == old(clashes) + Clashes(placeholders[..k])
      {
        var (hash, placeholder) := placeholders[k];
        assert placeholders[..k + 1][..k] == placeholders[..k];
        if placeholder in restore && restore[placeholder] != hash {
          clashes := clashes + [(restore[placeholder], hash)];
        } else {
          restore := restore[placeholder := hash];
        }
      }
      assert placeholders[..|placeholders|] == placeholders;
    }

    /** `code.replace(HEX16, ...)`, noting whether a content hash was met. */
    method ReplaceHashes(code: string, placeholders: Entries) returns (replaced: string, found: bool)
      ensures replaced == Substitute(placeholders, code)
      ensures found <==> MeetsHash(Tokens(code), placeholders)
    {
      var i := 0;
      replaced, found := [], false;
      ScanStarts(code, placeholders);
      while i < |code|
        invariant Scanned(code, i, replaced, found, placeholders)
        decreases |code| - i
      {
        var k := Lead(code[i..]);
        var m := code[i..i + k];
        var p := Find(placeholders, m);
        ScanStep(code, i, replaced, found, placeholders);
        if Hex16(m) && p.Some? {
          found := true;
          replaced := replaced + p.value;
        } else {
          replaced := replaced + m;
        }
        i := i + k;
      }
      ScanEnds(code, i, replaced, found, placeholders);
    }

    /** The text up to `i` is done: what is written so far and what the rest becomes make the whole. */
    static predicate Scanned(code: string, i: nat, replaced: string, found: bool, placeholders: Entries) {
      && i <= |code|
      && replaced + Substitute(placeholders, code[i..]) == Substitute(placeholders, code)
      && (found || MeetsHash(Tokens(code[i..]), placeholders) <==> MeetsHash(Tokens(code), placeholders))
    }

    static lemma ScanStarts(code: string, placeholders: Entries)
      ensures Scanned(code, 0, [], false, placeholders)
    {
      assert code[0..] == code;
    }

    static lemma {:induction false} ScanEnds(code: string, i: nat, replaced: string, found: bool, placeholders: Entries)
      requires Scanned(code, i, replaced, found, placeholders) && i >= |code|
      ensures replaced == Substitute(placeholders, code) && (found <==> MeetsHash(Tokens(code), placeholders))
    {
      assert code[i..] == [];
    }

    static lemma {:induction false} ScanStep(code: string, i: nat, replaced: string, found: bool, placeholders: Entries)
      requires Scanned(code, i, replaced, found, placeholders) && i < |code|
      ensures var k := Lead(code[i..]);
              var m, p := code[i..i + k], Find(placeholders, code[i..i + k]);
              if Hex16(m) && p.Some? then Scanned(code, i + k, replaced + p.value, true, placeholders)
              else Scanned(code, i + k, replaced + m, found, placeholders)
    {
      var k := Lead(code[i..]);
      var m, p := code[i..i + k], Find(placeholders, code[i..i + k]);
      PieceReplaced(code, i, placeholders);
      Regroup(replaced, if Hex16(m) && p.Some? then p.value else m, Substitute(placeholders, code[i + k..]));
    }

    static lemma Regroup(a: string, b: string, c: string)
      ensures a + (b + c) == (a + b) + c
    {
    }

    static predicate MeetsHash(tokens: seq<string>, placeholders: Entries) {
      exists t | t in tokens :: HasKey(placeholders, t)
    }

    static lemma MeetsEither(a: seq<string>, b: seq<string>, placeholders: Entries)
      ensures MeetsHash(a + b, placeholders) <==> MeetsHash(a, placeholders) || MeetsHash(b, placeholders)
    {
      if MeetsHash(a, placeholders) {
        var t :| t in a && HasKey(placeholders, t);
        assert t in a + b;
      }
      if MeetsHash(b, placeholders) {
        var t :| t in b && HasKey(placeholders, t);
        assert t in a + b;
      }
    }

    /** One piece of the text at a time. */
    static lemma {:induction false} PieceReplaced(code: string, i: nat, placeholders: Entries)
      requires i < |code|
      ensures var k := Lead(code[i..]);
              var m, p := code[i..i + k], Find(placeholders, code[i..i + k]);
              && Substitute(placeholders, code[i..])
                 == (if Hex16(m) && p.Some? then p.value else m) + Substitute(placeholders, code[i + k..])
              && (MeetsHash(Tokens(code[i..]), placeholders)
                  <==> (Hex16(m) && p.Some?) || MeetsHash(Tokens(code[i + k..]), placeholders))
    {
      var s := code[i..];
      var k := Lead(s);
      assert s[..k] == code[i..i + k] && s[k..] == code[i + k..];
      FirstPieceReplaced(s, placeholders);
    }

    static lemma {:induction false} FirstPieceReplaced(s: string, placeholders: Entries)
      requires s != []
      ensures var m, rest, p := s[..Lead(s)], s[Lead(s)..], Find(placeholders, s[..Lead(s)]);
              && Substitute(placeholders, s)
                 == (if Hex16(m) && p.Some? then p.value else m) + Substitute(placeholders, rest)
              && (MeetsHash(Tokens(s), placeholders)
                  <==> (Hex16(m) && p.Some?) || MeetsHash(Tokens(rest), placeholders))
    {
      var m := s[..Lead(s)];
      FindFinds(placeholders, m);
      MeetsEither(if Hex16(m) then [m] else [], Tokens(s[Lead(s)..]), placeholders);
      if Hex16(m) && HasKey(placeholders, m) { assert m in [m]; }
    }

    function Eligible(a: Asset): bool {
      !a.minimized && isJs(a.name)
    }

    /** What the first pass makes of an asset. */
    function Prepared(a: Asset, placeholders: Entries): Asset {
      if Eligible(a) then a.(source := Substitute(placeholders, a.source)) else a
    }

    predicate NamesHash(a: Asset, placeholders: Entries) {
      Eligible(a) && MeetsHash(Tokens(a.source), placeholders)
    }

    method RewriteAssets(placeholders: Entries)
      requires touched == {}
      modifies this`assets, this`touched
      ensures |assets| == |old(assets)| && (forall j | 0 <= j < |assets| :: assets[j] == Prepared(old(assets)[j], placeholders))
      ensures touched == set j | 0 <= j < |old(assets)| && NamesHash(old(assets)[j], placeholders) :: old(assets)[j].name
    {
      var given := assets;
      for j := 0 to |given|
        invariant |assets| == |given|
        invariant forall n | 0 <= n < j :: assets[n] == Prepared(given[n], placeholders)
        invariant forall n | j <= n < |given| :: assets[n] == given[n]
        invariant touched == set n | 0 <= n < j && NamesHash(given[n], placeholders) :: given[n].name
      {
        if Eligible(given[j]) {
          var replaced, found := ReplaceHashes(given[j].source, placeholders);
          if found {
            touched := touched + {given[j].name};
            assets := assets[j := given[j].(source := replaced)];
          } else {
            NothingToReplace(given[j].source, placeholders);
          }
        }
      }
    }

    method BeforeMinifier()
      requires restore == map[] && touched == {}
      modifies this`restore, this`clashes, this`assets, this`touched
      ensures var ps := PlaceholdersOf(old(assets), digest);
              && restore == RestoreOf(ps)
              && clashes == old(clashes) + Clashes(ps)
              && |assets| == |old(assets)| && (forall j | 0 <= j < |assets| :: assets[j] == Prepared(old(assets)[j], ps))
              && touched == set j | 0 <= j < |old(assets)| && NamesHash(old(assets)[j], ps) :: old(assets)[j].name
    {
      var placeholders := FillPlaceholders();
      FillRestore(placeholders);
      RewriteAssets(placeholders);
    }

    /** A text that names no content hash is left as it is. */
    static lemma {:induction false} NothingToReplace(code: string, placeholders: Entries)
      requires !MeetsHash(Tokens(code), placeholders)
      ensures Substitute(placeholders, code) == code
    {
      var same: string -> string := t => t;
      forall t | t in Tokens(code) ensures Placed(placeholders, t) == same(t) { FindFinds(placeholders, t); }
      RewriteAgrees(code, t => Placed(placeholders, t), same);
      RewriteIsIdentity(code, same);
    }

    // ---- after the minifier -----------------------------------------------------------------------------

    /** What the second pass makes of an asset. */
    static function Finished(a: Asset, restore: map<string, string>, touched: set<string>): Asset {
      if a.name in touched then a.(source := Restore(restore, a.source)) else a
    }

    /** The placeholders still in a touched asset, each an error. */
    static function LeftIn(a: Asset, restore: map<string, string>, touched: set<string>): set<(string, string)> {
      set p | p in restore && a.name in touched && Occurs(p, a.source) :: (p, a.name)
    }

    static function LeftInAll(all: seq<Asset>, restore: map<string, string>, touched: set<string>): set<(string, string)> {
      if all == [] then {}
      else LeftInAll(all[..|all| - 1], restore, touched) + LeftIn(all[|all| - 1], restore, touched)
    }

    method AfterMinifier()
      modifies this`assets, this`leftovers
      ensures |assets| == |old(assets)| && (forall j | 0 <= j < |assets| :: assets[j] == Finished(old(assets)[j], restore, touched))
      ensures leftovers == old(leftovers) + LeftInAll(assets, restore, touched)
    {
      var given := assets;
      for j := 0 to |given|
        invariant |assets| == |given|
        invariant forall n | 0 <= n < j :: assets[n] == Finished(given[n], restore, touched)
        invariant forall n | j <= n < |given| :: assets[n] == given[n]
        invariant leftovers == old(leftovers) + LeftInAll(assets[..j], restore, touched)
      {
        ghost var was := assets;
        if given[j].name in touched {
          var restored := Restore(restore, given[j].source);
          assets := assets[j := given[j].(source := restored)];
          leftovers := leftovers + LeftIn(assets[j], restore, touched);
        }
        assert assets[..j + 1][..j] == was[..j];
        assert assets[..j + 1][j] == assets[j];
      }
      assert assets[..|given|] == assets;
    }

    // ---- the two passes together ------------------------------------------------------------------------

    /** No word of a source that names a content hash is a placeholder without being a content hash. */
    predicate WordsApart(all: seq<Asset>, placeholders: Entries) {
      forall j | 0 <= j < |all| && NamesHash(all[j], placeholders) :: Apart(all[j].source, placeholders)
    }

    static predicate Apart(code: string, placeholders: Entries) {
      forall t | t in Tokens(code) :: HasKey(placeholders, t) || !IsPlaceholder(placeholders, t)
    }

    /** One asset through both passes: it comes back exactly when it is not touched or its words are apart. */
    lemma {:induction false} AssetComesBackIff(all: seq<Asset>, j: nat, touched: set<string>)
      requires HexDigest(digest) && j < |all| && Clashes(PlaceholdersOf(all, digest)) == []
      requires all[j].name in touched <==> NamesHash(all[j], PlaceholdersOf(all, digest))
      ensures var ps := PlaceholdersOf(all, digest);
              Finished(Prepared(all[j], ps), RestoreOf(ps), touched) == all[j]
              <==> (NamesHash(all[j], ps) ==> Apart(all[j].source, ps))
    {
      var ps := PlaceholdersOf(all, digest);
      if NamesHash(all[j], ps) {
        RoundTripIff(all, digest, all[j].source);
      } else if Eligible(all[j]) {
        NothingToReplace(all[j].source, ps);
      }
    }

    /** The errors of the second pass, as a set over the assets. */
    static lemma {:induction false} LeftInAllIs(all: seq<Asset>, restore: map<string, string>, touched: set<string>)
      ensures forall p, name :: (p, name) in LeftInAll(all, restore, touched) <==>
                exists j | 0 <= j < |all| :: all[j].name == name && (p, name) in LeftIn(all[j], restore, touched)
    {
      if all != [] {
        var n := |all| - 1;
        LeftInAllIs(all[..n], restore, touched);
        forall p, name ensures (p, name) in LeftInAll(all, restore, touched) <==>
            exists j | 0 <= j < |all| :: all[j].name == name && (p, name) in LeftIn(all[j], restore, touched) {
          if j :| 0 <= j < |all| && all[j].name == name && (p, name) in LeftIn(all[j], restore, touched) {
            assert j < n ==> all[..n][j] == all[j];
          }
        }
      }
    }

    /** With a minifier that changes nothing and no clash reported, the build gives every asset back
        exactly when, in each source that names a content hash, the words are apart from the
        placeholders; and what it reports as left over is what those sources then hold. */
    method RunUnminified()
      requires HexDigest(digest) && restore == map[] && touched == {} && clashes == [] && leftovers == {}
      requires forall i, j | 0 <= i < j < |assets| :: assets[i].name != assets[j].name
      modifies this
      ensures var ps := PlaceholdersOf(old(assets), digest);
              && clashes == Clashes(ps)
              && (clashes == [] ==> (assets == old(assets) <==> WordsApart(old(assets), ps)))
              && |assets| == |old(assets)|
              && (forall p, name :: (p, name) in leftovers <==>
                    exists j | 0 <= j < |assets| ::
                      && assets[j].name == name && NamesHash(old(assets)[j], ps)
                      && p in RestoreOf(ps) && Occurs(p, assets[j].source))
    {
      ghost var given := assets;
      ghost var ps := PlaceholdersOf(given, digest);
      BeforeMinifier();
      assert forall j | 0 <= j < |given| :: given[j].name in touched <==> NamesHash(given[j], ps);
      ghost var prepared := assets;
      AfterMinifier();
      LeftInAllIs(assets, restore, touched);
      if clashes == [] {
        forall j | 0 <= j < |given| ensures assets[j] == given[j] <==> (NamesHash(given[j], ps) ==> Apart(given[j].source, ps)) {
          AssetComesBackIff(given, j, touched);
        }
      }
    }
  }

  // ---- a source the plugin changes ----------------------------------------------------------------------

  lemma {:induction false} SingleEntry(asset: Asset, digest: Digest)
    requires |asset.hashes| == 1 && Hex16(asset.hashes[0])
    ensures PlaceholdersOf([asset], digest) == [(asset.hashes[0], digest(Mask(asset.name, asset.hashes[0]), 0))]
  {
    var hash := asset.hashes[0];
    assert [asset][..0] == [] && asset.hashes[..0] == [];
    assert AddAsset([], asset.name, asset.hashes, digest) == AddHash([], asset.name, hash, 0, digest);
    assert !HasKey([], hash);
  }

  lemma {:induction false} SingleMaps(hash: string, word: string)
    ensures var ps := [(hash, word)]; RestoreOf(ps) == map[word := hash] && Clashes(ps) == [] && Placed(ps, hash) == word
    ensures word != hash ==> Placed([(hash, word)], word) == word
  {
    var ps := [(hash, word)];
    assert ps[..0] == [];
    assert Find(ps[..0], word) == None;
  }

  /** Sixteen hex digits are found in two words only as one of them. */
  lemma NotInTwoWords(p: string, a: string)
    requires Hex16(p) && Hex16(a) && p != a
    ensures !Occurs(p, a + " " + a)
  {
    var s := a + " " + a;
    forall i | 0 <= i <= |s| ensures !OccursAt(p, s, i) {
      if i == 0 {
        assert s[0..16] == a;
      } else if i == 17 {
        assert s[17..33] == a;
      } else if i <= 16 {
        assert s[16] == ' ' && s[i..i + 16][16 - i] == ' ';
      }
    }
  }

  /** The condition of the round trip is not one the plugin checks: in any build of one chunk whose
      source holds the chunk's hash and, beside it, its placeholder as an ordinary word, the word is
      changed to the hash, and nothing is reported. */
  method UncheckedWord(name: string, hash: string, digest: Digest, isJs: string -> bool) returns (plugin: StableMinifierInput)
    requires Hex16(hash) && HexDigest(digest) && isJs(name) && digest(Mask(name, hash), 0) != hash
    ensures var word := digest(Mask(name, hash), 0);
            && plugin.clashes == [] && plugin.leftovers == {}
            && plugin.assets == [Asset(name, [hash], false, hash + " " + hash)]
            && plugin.assets != [Asset(name, [hash], false, hash + " " + word)]
  {
    var word := digest(Mask(name, hash), 0);
    var asset := Asset(name, [hash], false, hash + " " + word);
    plugin := new StableMinifierInput([asset], digest, isJs);
    SingleEntry(asset, digest);
    WordGoesIn(hash, word);
    WordComesOut(hash, word);
    plugin.BeforeMinifier();
    ghost var between := plugin.assets[0];
    assert between == asset.(source := word + " " + word);
    assert plugin.NamesHash(asset, [(hash, word)]) && name in plugin.touched;
    plugin.AfterMinifier();
    assert plugin.assets[0] == asset.(source := hash + " " + hash);
    assert plugin.assets == [plugin.assets[0]];
    NothingLeft(plugin.assets[0], hash, word, plugin.touched);
    LastWord(hash, word);
  }

  lemma LastWord(hash: string, word: string)
    requires |hash| == 16 && |word| == 16 && word != hash
    ensures hash + " " + hash != hash + " " + word
  {
    assert (hash + " " + hash)[17..] == hash && (hash + " " + word)[17..] == word;
  }

  lemma {:induction false} WordGoesIn(hash: string, word: string)
    requires Hex16(hash) && Hex16(word) && word != hash
    ensures var ps := [(hash, word)];
            && RestoreOf(ps) == map[word := hash] && Clashes(ps) == []
            && Substitute(ps, hash + " " + word) == word + " " + word
            && StableMinifierInput.MeetsHash(Tokens(hash + " " + word), ps)
  {
    var ps := [(hash, word)];
    SingleMaps(hash, word);
    TwoWords(hash, word, t => Placed(ps, t));
    assert ps[0].0 == hash && hash in [hash, word];
  }

  lemma {:induction false} WordComesOut(hash: string, word: string)
    requires Hex16(word)
    ensures Restore(map[word := hash], word + " " + word) == hash + " " + hash
  {
    TwoWords(word, word, t => PutBack(map[word := hash], t));
  }

  lemma {:induction false} NothingLeft(a: Asset, hash: string, word: string, touched: set<string>)
    requires Hex16(hash) && Hex16(word) && word != hash && a.source == hash + " " + hash
    ensures StableMinifierInput.LeftInAll([a], map[word := hash], touched) == {}
  {
    NotInTwoWords(word, hash);
    assert [a][..0] == [];
  }

  // ---- two builds of one commit -------------------------------------------------------------------------

  /** The builds differ in nothing but their content hashes: the same assets in the same order, each as
      far processed and of the same sort, each source of the second what the first's is renamed. */
  ghost predicate SameButHashes(a: seq<Asset>, b: seq<Asset>, rho: string -> string, digest: Digest, isJs: string -> bool) {
    && Renamed(a, b, rho) && InjectiveOn(HashesOf(a), rho)
    && forall j | 0 <= j < |a| ::
         && a[j].minimized == b[j].minimized && isJs(a[j].name) == isJs(b[j].name)
         && b[j].source == RenamedText(a, digest, rho, a[j].source)
  }

  /** The plugin over both builds: the minifier is handed the same sources by both exactly when, in each
      source it gets, the second build leaves alone the words that are no content hash of the first. */
  method TwoBuilds(a: seq<Asset>, b: seq<Asset>, ghost rho: string -> string, digest: Digest, isJs: string -> bool)
    returns (p: StableMinifierInput, q: StableMinifierInput)
    requires HexDigest(digest) && SameButHashes(a, b, rho, digest, isJs)
    ensures |p.assets| == |q.assets| == |a|
    ensures (forall j | 0 <= j < |a| && !a[j].minimized && isJs(a[j].name) :: p.assets[j].source == q.assets[j].source) <==>
            (forall j | 0 <= j < |a| && !a[j].minimized && isJs(a[j].name) ::
               NoCrossTalk(PlaceholdersOf(a, digest), PlaceholdersOf(b, digest), a[j].source))
  {
    p := new StableMinifierInput(a, digest, isJs);
    p.BeforeMinifier();
    q := new StableMinifierInput(b, digest, isJs);
    q.BeforeMinifier();
    forall j | 0 <= j < |a| && !a[j].minimized && isJs(a[j].name)
      ensures p.assets[j].source == q.assets[j].source <==> NoCrossTalk(PlaceholdersOf(a, digest), PlaceholdersOf(b, digest), a[j].source)
    {
      MinifierInputIsStableIff(a, b, rho, digest, a[j].source);
    }
  }

  lemma {:induction false} CrossTalkTexts(h: string, g: string, w: string)
    requires Hex16(h) && Hex16(g) && Hex16(w) && h != g && w != g
    ensures Substitute([(h, w)], h + " " + g) == w + " " + g && Substitute([(g, w)], g + " " + g) == w + " " + w
    ensures w + " " + g != w + " " + w
  {
    SingleMaps(h, w);
    SingleMaps(g, w);
    TwoWords(h, g, t => Placed([(h, w)], t));
    TwoWords(g, g, t => Placed([(g, w)], t));
    assert Find([(h, w)][..0], g) == None;
    LastWord(w, g);
  }

  lemma {:induction false} CrossTalkRenames(a: Asset, b: Asset, h: string, g: string, digest: Digest, isJs: string -> bool)
    requires Hex16(h) && Hex16(g) && h != g && a.hashes == [h] && b.hashes == [g] && Mask(a.name, h) == Mask(b.name, g)
    requires !a.minimized && !b.minimized && isJs(a.name) && isJs(b.name) && a.source == h + " " + g && b.source == g + " " + g
    ensures SameButHashes([a], [b], t => g, digest, isJs)
  {
    var rho: string -> string := t => g;
    SingleEntry(a, digest);
    var pa := PlaceholdersOf([a], digest);
    TwoWords(h, g, t => RenamedToken(pa, rho, t));
    assert pa[0].0 == h;
    assert HashesOf([a]) == {h};
  }

  /** Two builds of one chunk that differ in nothing but its content hash, and hand the minifier different
      texts: the first source holds, as an ordinary word, the second build's hash. */
  method UnstableInput(a: Asset, b: Asset, h: string, g: string, digest: Digest, isJs: string -> bool)
    returns (p: StableMinifierInput, q: StableMinifierInput)
    requires HexDigest(digest) && Hex16(h) && Hex16(g) && h != g && digest(Mask(a.name, h), 0) != g
    requires a.hashes == [h] && b.hashes == [g] && Mask(a.name, h) == Mask(b.name, g)
    requires !a.minimized && !b.minimized && isJs(a.name) && isJs(b.name) && a.source == h + " " + g && b.source == g + " " + g
    ensures SameButHashes([a], [b], t => g, digest, isJs)
    ensures var w := digest(Mask(a.name, h), 0);
      && p.assets == [a.(source := w + " " + g)] && q.assets == [b.(source := w + " " + w)]
      && p.assets[0].source != q.assets[0].source
  {
    CrossTalkRenames(a, b, h, g, digest, isJs);
    SingleEntry(a, digest);
    SingleEntry(b, digest);
    CrossTalkTexts(h, g, digest(Mask(a.name, h), 0));
    p := new StableMinifierInput([a], digest, isJs);
    p.BeforeMinifier();
    assert p.assets[0] == a.(source := digest(Mask(a.name, h), 0) + " " + g);
    q := new StableMinifierInput([b], digest, isJs);
    q.BeforeMinifier();
    assert q.assets[0] == b.(source := digest(Mask(a.name, h), 0) + " " + digest(Mask(a.name, h), 0));
  }

  // ---- an alarm about nothing -----------------------------------------------------------------------------

  lemma {:induction false} TwoEntries(a: Asset, b: Asset, h: string, g: string, w: string, digest: Digest)
    requires a.hashes == [h] && b.hashes == [g] && Hex16(h) && Hex16(g) && h != g && g != w
    requires digest(Mask(a.name, h), 0) == g && digest(Mask(b.name, g), 0) == w
    ensures var ps := PlaceholdersOf([a, b], digest); ps == [(h, g), (g, w)] && Clashes(ps) == [] && g in RestoreOf(ps)
  {
    var one := [(h, g)];
    SingleEntry(a, digest);
    assert [a, b][..1] == [a] && b.hashes[..0] == [];
    assert AddAsset(one, b.name, b.hashes, digest) == AddHash(one, b.name, g, 0, digest);
    assert !HasKey(one, g);
    SingleMaps(h, g);
    var ps := [(h, g), (g, w)];
    assert ps[..1] == one;
    assert RestoreOf(ps) == RestoreOf(one)[w := g];
  }

  /** Two chunks whose hashes chain, the placeholder of one being the hash of the other: the second's own
      hash in its source comes back, no clash is reported, and it is reported as left over. */
  method FalseAlarm(a: Asset, b: Asset, h: string, g: string, w: string, digest: Digest, isJs: string -> bool)
    returns (plugin: StableMinifierInput)
    requires HexDigest(digest) && a.name != b.name && a.source == [] && b.source == g && !b.minimized && isJs(b.name)
    requires a.hashes == [h] && b.hashes == [g] && Hex16(h) && Hex16(g) && h != g && g != w
    requires digest(Mask(a.name, h), 0) == g && digest(Mask(b.name, g), 0) == w
    ensures plugin.assets == [a, b] && plugin.clashes == [] && (g, b.name) in plugin.leftovers
  {
    var all := [a, b];
    plugin := new StableMinifierInput(all, digest, isJs);
    TwoEntries(a, b, h, g, w, digest);
    ghost var ps := PlaceholdersOf(all, digest);
    AlarmWords(h, g, w);
    SourcesApart(plugin, a, b, ps);
    plugin.RunUnminified();
    assert plugin.assets[1].name == b.name;
  }

  lemma {:induction false} AlarmWords(h: string, g: string, w: string)
    requires Hex16(g)
    ensures var ps := [(h, g), (g, w)];
      StableMinifierInput.MeetsHash(Tokens(g), ps) && StableMinifierInput.Apart(g, ps) && StableMinifierInput.Apart([], ps) && Occurs(g, g)
  {
    var ps := [(h, g), (g, w)];
    OneToken(g, t => t);
    assert ps[1].0 == g;
    assert g in [g];
    assert OccursAt(g, g, 0);
  }

  lemma {:induction false} SourcesApart(plugin: StableMinifierInput, a: Asset, b: Asset, ps: Entries)
    requires StableMinifierInput.Apart(a.source, ps) && StableMinifierInput.Apart(b.source, ps)
    requires StableMinifierInput.MeetsHash(Tokens(b.source), ps) && !b.minimized && plugin.isJs(b.name)
    ensures plugin.WordsApart([a, b], ps) && plugin.NamesHash([a, b][1], ps)
  {
  }

  const Ones: string := "1111111111111111"
  const Twos: string := "2222222222222222"
  const Threes: string := "3333333333333333"

  /** Such chunks: two names, and a digest that chains them. */
  method FalseAlarmHappens() returns (plugin: StableMinifierInput)
    ensures plugin.assets == [Asset("a", [Ones], false, []), Asset("b", [Twos], false, Twos)]
    ensures plugin.clashes == [] && (Twos, "b") in plugin.leftovers
  {
    var digest: Digest := (masked, i) => if masked == "a" then Twos else Threes;
    HexConstants();
    MaskOne("a", Ones);
    MaskOne("b", Twos);
    plugin := FalseAlarm(Asset("a", [Ones], false, []), Asset("b", [Twos], false, Twos), Ones, Twos, Threes, digest, name => true);
  }

  lemma HexConstants()
    ensures Hex16(Ones) && Hex16(Twos) && Hex16(Threes) && Ones != Twos && Twos != Threes
  {
    assert Ones[0] != Twos[0] && Twos[0] != Threes[0];
  }

  lemma {:induction false} MaskOne(name: string, hash: string)
    requires |name| == 1 && |hash| == 16
    ensures Mask(name, hash) == name
  {
    assert name[1..] == [];
    assert name == [name[0]] + [];
  }
}
