/** Sixteen-digit hash tokens in a text, and rewriting them.

    A token is what the pattern `(?<![0-9a-f])[0-9a-f]{16}(?![0-9a-f])` matches: sixteen hex digits
    with no hex digit on either side. A rewrite that puts a token for a token leaves every hex run
    as long as it was, so a second rewrite sees tokens at the same places. */
module HashTokens {

  predicate Hex(c: char) {
    '0' <= c <= '9' || 'a' <= c <= 'f'
  }

  predicate AllHex(s: string) {
    forall i | 0 <= i < |s| :: Hex(s[i])
  }

  predicate Hex16(s: string) {
    |s| == 16 && AllHex(s)
  }

  /** The pattern matches at position `i`. */
  predicate TokenAt(s: string, i: int) {
    && 0 <= i && i + 16 <= |s| && AllHex(s[i..i + 16])
    && (i == 0 || !Hex(s[i - 1]))
    && (i + 16 == |s| || !Hex(s[i + 16]))
  }

  /** The hex digits `s` starts with. */
  function RunLength(s: string): (n: nat)
    ensures n <= |s| && AllHex(s[..n]) && (n == |s| || !Hex(s[n]))
  {
    if s == [] || !Hex(s[0]) then 0 else 1 + RunLength(s[1..])
  }

  lemma {:induction false} RunLengthIs(s: string, n: nat)
    requires n <= |s| && AllHex(s[..n]) && (n == |s| || !Hex(s[n]))
    ensures RunLength(s) == n
  {
    if n > 0 {
      assert s[..n][0] == s[0];
      assert s[1..][..n - 1] == s[..n][1..];
      RunLengthIs(s[1..], n - 1);
    }
  }

  /** The first piece of a text: its leading hex run, or one character that is no hex digit. */
  function Lead(s: string): (n: nat)
    requires s != []
    ensures 0 < n <= |s|
  {
    if Hex(s[0]) then RunLength(s) else 1
  }

  function OnToken(t: string, F: string -> string): string {
    if Hex16(t) then F(t) else t
  }

  /** Replaces every token by its image, left to right. */
  function Rewrite(s: string, F: string -> string): string
    decreases |s|
  {
    if s == [] then [] else OnToken(s[..Lead(s)], F) + Rewrite(s[Lead(s)..], F)
  }

  /** The tokens of a text, in order. */
  function Tokens(s: string): seq<string>
    decreases |s|
  {
    if s == [] then [] else (if Hex16(s[..Lead(s)]) then [s[..Lead(s)]] else []) + Tokens(s[Lead(s)..])
  }

  ghost predicate KeepsTokens(F: string -> string) {
    forall t {:trigger F(t)} :: Hex16(t) ==> Hex16(F(t))
  }

  // ---- the scanner finds what the pattern matches -----------------------------------------------------

  lemma LeadHexes(s: string)
    requires s != []
    ensures (Hex(s[0]) && AllHex(s[..Lead(s)])) || (!Hex(s[0]) && Lead(s) == 1)
    ensures Hex(s[0]) ==> Lead(s) == |s| || !Hex(s[Lead(s)])
    ensures Hex16(s[..Lead(s)]) ==> Hex(s[0]) && Lead(s) == 16
  {
    if Hex16(s[..Lead(s)]) {
      assert s[..Lead(s)][0] == s[0];
    }
  }

  lemma TokenAtStart(s: string)
    requires s != []
    ensures TokenAt(s, 0) <==> Hex16(s[..Lead(s)])
  {
    LeadHexes(s);
    if TokenAt(s, 0) {
      assert s[0..16][0] == s[0];
      assert s[..16] == s[0..16];
      RunLengthIs(s, 16);
    }
  }

  /** Past the first piece, a match in the rest is a match in the whole. */
  lemma TokenAtRest(s: string, i: nat)
    requires s != []
    ensures TokenAt(s, Lead(s) + i) <==> TokenAt(s[Lead(s)..], i)
  {
    LeadHexes(s);
    var k := Lead(s);
    var rest := s[k..];
    if k + i + 16 <= |s| {
      assert rest[i..i + 16] == s[k + i..k + i + 16];
      if i == 0 && Hex(s[0]) {
        assert !AllHex(rest[0..16]) by { assert rest[0..16][0] == s[k]; }
      }
    }
  }

  /** No match starts inside the first piece. */
  lemma NoTokenInside(s: string, i: nat)
    requires s != [] && 0 < i < Lead(s)
    ensures !TokenAt(s, i)
  {
    LeadHexes(s);
    assert s[..Lead(s)][i - 1] == s[i - 1];
  }

  lemma {:induction false} FirstToken(s: string, t: string)
    requires s != [] && t in Tokens(s) && t !in Tokens(s[Lead(s)..])
    ensures TokenAt(s, 0) && s[0..16] == t
  {
    TokenAtStart(s);
    LeadHexes(s);
    assert s[..Lead(s)] == t;
  }

  lemma {:induction false} TokenIsMatch(s: string, t: string) returns (i: nat)
    requires t in Tokens(s)
    ensures TokenAt(s, i) && s[i..i + 16] == t
    decreases |s|
  {
    var k := Lead(s);
    if t in Tokens(s[k..]) {
      var n := TokenIsMatch(s[k..], t);
      TokenAtRest(s, n);
      SliceOfRest(s, s[k..], k, k + n);
      i := k + n;
    } else {
      i := 0;
      FirstToken(s, t);
    }
  }

  lemma {:induction false} MatchIsToken(s: string, i: nat)
    requires TokenAt(s, i)
    ensures s[i..i + 16] in Tokens(s)
    decreases |s|
  {
    var k := Lead(s);
    if i == 0 {
      FirstMatchIsToken(s);
    } else if i < k {
      NoTokenInside(s, i);
    } else {
      TokenAtRest(s, i - k);
      MatchIsToken(s[k..], i - k);
      SliceOfRest(s, s[k..], k, i);
      LaterIsToken(s, s[i..i + 16]);
    }
  }

  lemma {:induction false} FirstMatchIsToken(s: string)
    requires TokenAt(s, 0)
    ensures s[0..16] in Tokens(s)
  {
    TokenAtStart(s);
    LeadHexes(s);
    assert s[..Lead(s)] == s[0..16];
  }

  lemma {:induction false} LaterIsToken(s: string, t: string)
    requires s != [] && t in Tokens(s[Lead(s)..])
    ensures t in Tokens(s)
  {
  }

  /** The tokens are exactly the matches of the pattern. */
  lemma {:induction false} TokensAreMatches(s: string, t: string)
    ensures t in Tokens(s) <==> exists i: nat :: TokenAt(s, i) && s[i..i + 16] == t
  {
    if t in Tokens(s) {
      var i := TokenIsMatch(s, t);
    }
    forall i: nat | TokenAt(s, i) && s[i..i + 16] == t ensures t in Tokens(s) {
      MatchIsToken(s, i);
    }
  }

  // ---- rewriting ---------------------------------------------------------------------------------------

  lemma HeadShape(s: string, F: string -> string)
    requires s != [] && KeepsTokens(F)
    ensures var h := OnToken(s[..Lead(s)], F);
            |h| == Lead(s) && (Hex(s[0]) ==> AllHex(h)) && (!Hex(s[0]) ==> h == [s[0]])
  {
    LeadHexes(s);
    if !Hex(s[0]) { assert s[..1] == [s[0]]; }
  }

  /** The first character of a rewritten text is a hex digit exactly where the text's is. */
  lemma {:induction false} FirstKept(s: string, F: string -> string)
    requires KeepsTokens(F)
    ensures s != [] ==> Rewrite(s, F) != [] && (Hex(Rewrite(s, F)[0]) <==> Hex(s[0]))
  {
    if s != [] {
      HeadShape(s, F);
      var h := OnToken(s[..Lead(s)], F);
      assert Rewrite(s, F)[0] == h[0];
    }
  }

  /** A rewritten text starts with the image of the first piece, and continues with the rewritten rest. */
  lemma {:induction false} LeadKept(s: string, F: string -> string)
    requires s != [] && KeepsTokens(F)
    ensures var r := Rewrite(s, F);
            && r != [] && Lead(r) == Lead(s)
            && r[..Lead(r)] == OnToken(s[..Lead(s)], F) && r[Lead(r)..] == Rewrite(s[Lead(s)..], F)
  {
    var k := Lead(s);
    var h, rest := OnToken(s[..k], F), Rewrite(s[k..], F);
    HeadShape(s, F);
    LeadHexes(s);
    FirstKept(s[k..], F);
    var r := h + rest;
    assert r[..k] == h && r[k..] == rest;
    assert r[0] == h[0];
    if Hex(s[0]) {
      assert k == |r| || r[k] == rest[0];
      RunLengthIs(r, k);
    }
  }

  /** Two rewrites in a row are one: the second meets the images of the tokens the first met. */
  lemma {:induction false} RewriteTwice(s: string, F: string -> string, G: string -> string)
    requires KeepsTokens(F)
    ensures Rewrite(Rewrite(s, F), G) == Rewrite(s, t => G(F(t)))
    decreases |s|
  {
    if s != [] {
      LeadKept(s, F);
      RewriteTwice(s[Lead(s)..], F, G);
      var piece := s[..Lead(s)];
      assert OnToken(OnToken(piece, F), G) == OnToken(piece, t => G(F(t)));
    }
  }

  function Mapped(ts: seq<string>, F: string -> string): seq<string> {
    seq(|ts|, i requires 0 <= i < |ts| => F(ts[i]))
  }

  lemma MapStep(a: seq<string>, b: seq<string>, F: string -> string)
    ensures Mapped(a + b, F) == Mapped(a, F) + Mapped(b, F)
  {
  }

  lemma {:induction false} TokensRewritten(s: string, F: string -> string)
    requires KeepsTokens(F)
    ensures Tokens(Rewrite(s, F)) == Mapped(Tokens(s), F)
    decreases |s|
  {
    if s != [] {
      LeadKept(s, F);
      TokensRewritten(s[Lead(s)..], F);
      var piece, rest := s[..Lead(s)], Tokens(s[Lead(s)..]);
      MapStep(if Hex16(piece) then [piece] else [], rest, F);
    }
  }

  /** Rewrites that agree on a text's tokens give one text. */
  lemma {:induction false} RewriteAgrees(s: string, F: string -> string, G: string -> string)
    requires forall t | t in Tokens(s) :: F(t) == G(t)
    ensures Rewrite(s, F) == Rewrite(s, G)
    decreases |s|
  {
    if s != [] {
      var k := Lead(s);
      assert forall t | t in Tokens(s[k..]) :: t in Tokens(s);
      RewriteAgrees(s[k..], F, G);
      if Hex16(s[..k]) { assert s[..k] in Tokens(s); }
    }
  }

  /** Two rewrites that keep tokens give one text exactly when they agree on its tokens. */
  lemma {:induction false} RewriteAgreesIff(s: string, F: string -> string, G: string -> string)
    requires KeepsTokens(F) && KeepsTokens(G)
    ensures Rewrite(s, F) == Rewrite(s, G) <==> Agree(s, F, G)
    decreases |s|
  {
    if s != [] {
      RewriteAgreesIff(s[Lead(s)..], F, G);
      LeadKept(s, F);
      LeadKept(s, G);
      SameParts(Rewrite(s, F), Rewrite(s, G), Lead(s));
      AgreeParts(s, F, G);
    }
  }

  predicate Agree(s: string, F: string -> string, G: string -> string) {
    forall t | t in Tokens(s) :: F(t) == G(t)
  }

  lemma {:induction false} AgreeParts(s: string, F: string -> string, G: string -> string)
    requires s != []
    ensures Agree(s, F, G) <==> OnToken(s[..Lead(s)], F) == OnToken(s[..Lead(s)], G) && Agree(s[Lead(s)..], F, G)
  {
    var piece, rest := s[..Lead(s)], s[Lead(s)..];
    assert Tokens(s) == (if Hex16(piece) then [piece] else []) + Tokens(rest);
    if Hex16(piece) { assert piece in [piece]; }
  }

  /** A rewrite gives a text back exactly when it fixes each of its tokens. */
  lemma {:induction false} RewriteIsIdentity(s: string, F: string -> string)
    requires KeepsTokens(F)
    ensures Rewrite(s, F) == s <==> Fixes(s, F)
    decreases |s|
  {
    if s != [] {
      var k := Lead(s);
      RewriteIsIdentity(s[k..], F);
      LeadKept(s, F);
      FixesParts(s, F);
      SameParts(Rewrite(s, F), s, k);
    }
  }

  predicate Fixes(s: string, F: string -> string) {
    forall t | t in Tokens(s) :: F(t) == t
  }

  lemma {:induction false} FixesParts(s: string, F: string -> string)
    requires s != []
    ensures Fixes(s, F) <==> OnToken(s[..Lead(s)], F) == s[..Lead(s)] && Fixes(s[Lead(s)..], F)
  {
    var piece, rest := s[..Lead(s)], s[Lead(s)..];
    assert Tokens(s) == (if Hex16(piece) then [piece] else []) + Tokens(rest);
    if Hex16(piece) { assert piece in [piece]; }
  }

  lemma SameParts(r: string, s: string, k: nat)
    requires k <= |s| && k <= |r|
    ensures r == s <==> r[..k] == s[..k] && r[k..] == s[k..]
  {
    assert r == r[..k] + r[k..] && s == s[..k] + s[k..];
  }

  /** What a rewrite does, place by place: at a token it puts the token's image, ... */
  lemma {:induction false} RewriteAtToken(s: string, F: string -> string, i: nat)
    requires KeepsTokens(F) && TokenAt(s, i)
    ensures |Rewrite(s, F)| == |s|
    ensures Rewrite(s, F)[i..i + 16] == F(s[i..i + 16])
    decreases |s|
  {
    RewriteLength(s, F);
    if i == 0 {
      RewriteFirst(s, F);
    } else if i < Lead(s) {
      NoTokenInside(s, i);
    } else {
      var rest := s[Lead(s)..];
      TokenAtRest(s, i - Lead(s));
      RewriteAtToken(rest, F, i - Lead(s));
      RewriteRest(s, F);
      Carry(s, rest, Rewrite(s, F), Rewrite(rest, F), Lead(s), i, F);
    }
  }

  /** What holds of a place in the rest holds of the same place in the whole. */
  lemma Carry(s: string, rest: string, r: string, rrest: string, k: nat, i: nat, F: string -> string)
    requires k <= i && i + 16 <= |s| == |r| && s[k..] == rest && r[k..] == rrest
    requires rrest[i - k..i - k + 16] == F(rest[i - k..i - k + 16])
    ensures r[i..i + 16] == F(s[i..i + 16])
  {
    SliceOfRest(s, rest, k, i);
    SliceOfRest(r, rrest, k, i);
  }

  lemma {:induction false} RewriteRest(s: string, F: string -> string)
    requires KeepsTokens(F) && s != []
    ensures Lead(s) <= |Rewrite(s, F)| && Rewrite(s, F)[Lead(s)..] == Rewrite(s[Lead(s)..], F)
  {
    LeadKept(s, F);
  }

  lemma {:induction false} RewriteFirst(s: string, F: string -> string)
    requires KeepsTokens(F) && TokenAt(s, 0)
    ensures |Rewrite(s, F)| >= 16 && Rewrite(s, F)[0..16] == F(s[0..16])
  {
    TokenAtStart(s);
    LeadHexes(s);
    LeadKept(s, F);
    assert s[..Lead(s)] == s[0..16];
  }

  lemma SliceOfRest(s: string, rest: string, k: nat, i: nat)
    requires k <= i && i + 16 <= |s| && s[k..] == rest
    ensures rest[i - k..i - k + 16] == s[i..i + 16]
  {
  }

  /** ... and everywhere else it changes nothing. */
  lemma {:induction false} RewriteElsewhere(s: string, F: string -> string, j: nat)
    requires KeepsTokens(F) && j < |s| && forall i: nat :: TokenAt(s, i) ==> !(i <= j < i + 16)
    ensures |Rewrite(s, F)| == |s| && Rewrite(s, F)[j] == s[j]
    decreases |s|
  {
    var k := Lead(s);
    RewriteLength(s, F);
    LeadKept(s, F);
    if j < k {
      TokenAtStart(s);
      LeadHexes(s);
      assert Rewrite(s, F)[j] == Rewrite(s, F)[..k][j];
    } else {
      forall i: nat | TokenAt(s[k..], i) ensures !(i <= j - k < i + 16) {
        TokenAtRest(s, i);
      }
      RewriteElsewhere(s[k..], F, j - k);
      assert Rewrite(s, F)[j] == Rewrite(s, F)[k..][j - k];
    }
  }

  lemma {:induction false} RewriteLength(s: string, F: string -> string)
    requires KeepsTokens(F)
    ensures |Rewrite(s, F)| == |s|
    decreases |s|
  {
    if s != [] {
      HeadShape(s, F);
      RewriteLength(s[Lead(s)..], F);
    }
  }

  // ---- where tokens stand ---------------------------------------------------------------------------------

  /** A rewritten text has its tokens where the text has them. */
  lemma {:induction false} TokensStay(s: string, F: string -> string, i: nat)
    requires KeepsTokens(F)
    ensures TokenAt(Rewrite(s, F), i) <==> TokenAt(s, i)
    decreases |s|
  {
    if s != [] {
      var r := Rewrite(s, F);
      LeadKept(s, F);
      if i == 0 {
        TokenAtStart(s);
        TokenAtStart(r);
        HeadShape(s, F);
      } else if i < Lead(s) {
        NoTokenInside(s, i);
        NoTokenInside(r, i);
      } else {
        TokenAtRest(s, i - Lead(s));
        TokenAtRest(r, i - Lead(s));
        TokensStay(s[Lead(s)..], F, i - Lead(s));
      }
    }
  }

  /** Sixteen hex digits stand at `i`, but as part of a longer run. */
  predicate InsideRun(s: string, i: nat) {
    i + 16 <= |s| && AllHex(s[i..i + 16]) && !TokenAt(s, i)
  }

  /** No token reaches into such a place. */
  lemma RunHasNoToken(s: string, i: nat, j: nat, k: nat)
    requires InsideRun(s, i) && i <= j < i + 16 && TokenAt(s, k)
    ensures !(k <= j < k + 16)
  {
    var run := s[i..i + 16];
    assert forall n | 0 <= n < 16 :: run[n] == s[i + n];
    assert forall n | i <= n < i + 16 :: s[n] == run[n - i] && Hex(s[n]);
  }

  /** A rewrite leaves such a place as it is, and makes no new one. */
  lemma {:induction false} RunsStay(s: string, F: string -> string, i: nat)
    requires KeepsTokens(F)
    ensures InsideRun(Rewrite(s, F), i) <==> InsideRun(s, i)
    ensures InsideRun(s, i) ==> i + 16 <= |Rewrite(s, F)| && Rewrite(s, F)[i..i + 16] == s[i..i + 16]
  {
    var r := Rewrite(s, F);
    RewriteLength(s, F);
    TokensStay(s, F, i);
    if InsideRun(s, i) || InsideRun(r, i) {
      forall j | i <= j < i + 16 ensures r[j] == s[j] {
        forall k: nat ensures TokenAt(s, k) ==> !(k <= j < k + 16) {
          TokensStay(s, F, k);
          if TokenAt(s, k) {
            RunHasNoToken(if InsideRun(s, i) then s else r, i, j, k);
          }
        }
        RewriteElsewhere(s, F, j);
      }
      assert r[i..i + 16] == s[i..i + 16];
    }
  }
}
