/** The ref-name patterns, written as regular expressions without lookaround, against the rules of
    `git check-ref-format`: what the patterns accept, and which of git's rules that leaves open. */
module RefNames {

  // ---- regular expressions ------------------------------------------------------------------------------

  datatype Regex =
    | Empty
    | Class(accepts: char -> bool)
    | Cat(l: Regex, r: Regex)
    | Alt(l: Regex, r: Regex)
    | Star(body: Regex)

  function Plus(e: Regex): Regex {
    Cat(e, Star(e))
  }

  function Option(e: Regex): Regex {
    Alt(Empty, e)
  }

  function Char(c: char): Regex {
    Class(x => x == c)
  }

  /** The whole of `s` matches `e`. */
  ghost predicate Matches(e: Regex, s: string)
    decreases |s|, e
  {
    match e
    case Empty => s == []
    case Class(accepts) => |s| == 1 && accepts(s[0])
    case Cat(l, r) => exists i {:trigger s[..i]} | 0 <= i <= |s| :: Matches(l, s[..i]) && Matches(r, s[i..])
    case Alt(l, r) => Matches(l, s) || Matches(r, s)
    case Star(body) => s == [] || exists i {:trigger s[..i]} | 0 < i <= |s| :: Matches(body, s[..i]) && Matches(Star(body), s[i..])
  }

  lemma Split(l: Regex, r: Regex, s: string) returns (i: nat)
    requires Matches(Cat(l, r), s)
    ensures i <= |s| && Matches(l, s[..i]) && Matches(r, s[i..])
  {
    i :| 0 <= i <= |s| && Matches(l, s[..i]) && Matches(r, s[i..]);
  }

  lemma {:induction false} Join(l: Regex, r: Regex, s: string, i: nat)
    requires i <= |s| && Matches(l, s[..i]) && Matches(r, s[i..])
    ensures Matches(Cat(l, r), s)
  {
  }

  lemma Unroll(body: Regex, s: string) returns (i: nat)
    requires Matches(Star(body), s) && s != []
    ensures 0 < i <= |s| && Matches(body, s[..i]) && Matches(Star(body), s[i..])
  {
    i :| 0 < i <= |s| && Matches(body, s[..i]) && Matches(Star(body), s[i..]);
  }

  lemma {:induction false} Roll(body: Regex, s: string, i: nat)
    requires 0 < i <= |s| && Matches(body, s[..i]) && Matches(Star(body), s[i..])
    ensures Matches(Star(body), s)
  {
  }

  // ---- the patterns ---------------------------------------------------------------------------------------

  /** What a ref name may hold at all: no control, space, DEL, ~ ^ : ? * [ or backslash. */
  predicate Allowed(c: char) {
    c > ' ' && c as int != 127 && c !in "~^:?*[\\"
  }

  predicate ComponentChar(c: char) {
    Allowed(c) && c != '/' && c != '.'
  }

  /** The character class `d`: a component character other than `@` and `{`. */
  predicate Plain(c: char) {
    ComponentChar(c) && c != '@' && c != '{'
  }

  const Ats: Regex := Star(Char('@'))
  const Block: Regex := Alt(Cat(Ats, Class(Plain)), Char('{'))
  const Component: Regex := Alt(Cat(Plus(Block), Ats), Plus(Char('@')))
  const Separator: Regex := Alt(Cat(Option(Char('.')), Char('/')), Char('.'))
  const Tail: Regex := Star(Cat(Separator, Component))
  /** The first component of a branch: it does not start with `-` and is not made of `@` alone. */
  const FirstBlock: Regex := Alt(Alt(Cat(Plus(Char('@')), Class(Plain)), Char('{')), Class(c => Plain(c) && c != '-'))
  const First: Regex := Cat(FirstBlock, Cat(Star(Block), Ats))

  const TagPattern: Regex := Cat(Component, Tail)
  const BranchPattern: Regex := Cat(First, Tail)

  const RefsPrefix: string := "refs/"

  function Literal(s: string): Regex {
    if s == [] then Empty else Cat(Char(s[0]), Literal(s[1..]))
  }

  const RefPattern: Regex := Cat(Literal(RefsPrefix), TagPattern)

  // ---- git's rules ------------------------------------------------------------------------------------------

  /** `..`, `//`, `/.` and `@{` */
  predicate Forbidden(a: char, b: char) {
    (a == '.' && b == '.') || (a == '/' && b == '/') || (a == '/' && b == '.') || (a == '@' && b == '{')
  }

  predicate NoForbiddenPair(s: string) {
    forall i | 0 <= i < |s| - 1 :: !Forbidden(s[i], s[i + 1])
  }

  predicate AllAllowed(s: string) {
    forall i | 0 <= i < |s| :: Allowed(s[i])
  }

  predicate Edge(c: char) {
    c == '/' || c == '.'
  }

  /** A well-formed name: not empty, allowed characters only, no `/` or `.` at either end, none of the
      forbidden pairs. These are git's rules but for the one on `.lock`. */
  predicate GoodName(s: string) {
    && s != [] && AllAllowed(s) && NoForbiddenPair(s)
    && !Edge(s[0]) && !Edge(s[|s| - 1])
  }

  // ---- repetition of a class ----------------------------------------------------------------------------------

  predicate AllAre(s: string, p: char -> bool) {
    forall i | 0 <= i < |s| :: p(s[i])
  }

  lemma {:induction false} StarOfClass(p: char -> bool, s: string)
    ensures Matches(Star(Class(p)), s) <==> AllAre(s, p)
    decreases |s|
  {
    if s != [] {
      if Matches(Star(Class(p)), s) {
        var i := Unroll(Class(p), s);
        assert i == 1;
        StarOfClass(p, s[1..]);
        assert s[..1][0] == s[0];
        assert forall k | 1 <= k < |s| :: s[k] == s[1..][k - 1];
      }
      if AllAre(s, p) {
        StarOfClass(p, s[1..]);
        Roll(Class(p), s, 1);
      }
    }
  }

  predicate OnlyAts(s: string) {
    forall i | 0 <= i < |s| :: s[i] == '@'
  }

  lemma {:induction false} AtsMatch(s: string)
    ensures Matches(Ats, s) <==> OnlyAts(s)
  {
    StarOfClass(x => x == '@', s);
  }

  // ---- blocks and components ------------------------------------------------------------------------------------

  /** `@` any number of times and then a plain character, or `{`. */
  predicate IsBlock(s: string) {
    s == "{" || AtsThenPlain(s)
  }

  predicate AtsThenPlain(s: string) {
    s != [] && OnlyAts(s[..|s| - 1]) && Plain(s[|s| - 1])
  }

  lemma {:induction false} AtsThenPlainMatches(s: string)
    ensures Matches(Cat(Ats, Class(Plain)), s) <==> AtsThenPlain(s)
  {
    if Matches(Cat(Ats, Class(Plain)), s) {
      var i := Split(Ats, Class(Plain), s);
      assert i == |s| - 1;
      AtsMatch(s[..i]);
    }
    if AtsThenPlain(s) {
      AtsMatch(s[..|s| - 1]);
      Join(Ats, Class(Plain), s, |s| - 1);
    }
  }

  lemma {:induction false} CharMatches(c: char, s: string)
    ensures Matches(Char(c), s) <==> s == [c]
  {
  }

  lemma {:induction false} EitherMatches(l: Regex, r: Regex, s: string)
    ensures Matches(Alt(l, r), s) <==> Matches(l, s) || Matches(r, s)
  {
  }

  lemma {:induction false} BlockMatches(s: string)
    ensures Matches(Block, s) <==> IsBlock(s)
  {
    AtsThenPlainMatches(s);
    CharMatches('{', s);
    EitherMatches(Cat(Ats, Class(Plain)), Char('{'), s);
  }

  /** Component characters, no `@{`, and no `@` at the end. */
  predicate IsBlocks(s: string) {
    AllAre(s, ComponentChar) && NoForbiddenPair(s) && (s != [] ==> s[|s| - 1] != '@')
  }

  /** How long a leading block is. */
  function BlockLength(s: string): (n: nat)
    requires s != [] && IsBlocks(s)
    ensures 0 < n <= |s| && IsBlock(s[..n])
  {
    if s[0] != '@' then
      assert s[..1] == [s[0]];
      assert s[..1][..0] == [];
      1
    else
      assert s[0] == '@' && |s| > 1;
      assert IsBlocks(s[1..]) by { RestOfBlocks(s, 1); }
      assert !Forbidden(s[0], s[1]);
      var n := BlockLength(s[1..]);
      assert s[1..][..n] == s[1..n + 1];
      assert IsBlock(s[..n + 1]) by { BlockAfterAt(s, n); }
      n + 1
  }

  lemma RestOfBlocks(s: string, i: nat)
    requires IsBlocks(s) && i <= |s|
    ensures IsBlocks(s[i..])
  {
    var t := s[i..];
    assert forall k | 0 <= k < |t| :: t[k] == s[i + k];
  }

  lemma BlockAfterAt(s: string, n: nat)
    requires 0 < n < |s| && s[0] == '@' && s[1] != '{' && IsBlock(s[1..n + 1])
    ensures IsBlock(s[..n + 1])
  {
    var t, u := s[1..n + 1], s[..n + 1];
    assert t[0] == s[1];
    assert u[|u| - 1] == t[|t| - 1];
    var ats := u[..|u| - 1];
    forall k | 0 <= k < |ats| ensures ats[k] == '@' {
      if k > 0 { assert ats[k] == t[..|t| - 1][k - 1]; }
    }
  }

  lemma BlocksJoin(a: string, b: string)
    requires IsBlock(a) && IsBlocks(b)
    ensures IsBlocks(a + b)
  {
    var s := a + b;
    assert forall k | 0 <= k < |a| - 1 :: a[k] == a[..|a| - 1][k];
    forall k | 0 <= k < |s| ensures ComponentChar(s[k]) {}
    forall k | 0 <= k < |s| - 1 ensures !Forbidden(s[k], s[k + 1]) {
      if k >= |a| { assert !Forbidden(b[k - |a|], b[k - |a| + 1]); }
    }
  }

  lemma {:induction false} BlocksMatch(s: string)
    ensures Matches(Star(Block), s) <==> IsBlocks(s)
    decreases |s|
  {
    if s != [] {
      if Matches(Star(Block), s) {
        var i := Unroll(Block, s);
        BlockMatches(s[..i]);
        BlocksMatch(s[i..]);
        BlocksJoin(s[..i], s[i..]);
        assert s == s[..i] + s[i..];
      }
      if IsBlocks(s) {
        var n := BlockLength(s);
        BlockMatches(s[..n]);
        RestOfBlocks(s, n);
        BlocksMatch(s[n..]);
        Roll(Block, s, n);
      }
    }
  }

  /** A component: not empty, component characters, no `@{`. */
  predicate IsComponent(s: string) {
    s != [] && AllAre(s, ComponentChar) && NoForbiddenPair(s)
  }

  lemma {:induction false} PlusBlocksMatch(s: string)
    ensures Matches(Plus(Block), s) <==> s != [] && IsBlocks(s)
  {
    if Matches(Plus(Block), s) {
      var i := Split(Block, Star(Block), s);
      BlockMatches(s[..i]);
      BlocksMatch(s[i..]);
      BlocksJoin(s[..i], s[i..]);
      assert s == s[..i] + s[i..];
    }
    if s != [] && IsBlocks(s) {
      var n := BlockLength(s);
      BlockMatches(s[..n]);
      RestOfBlocks(s, n);
      BlocksMatch(s[n..]);
      Join(Block, Star(Block), s, n);
    }
  }

  lemma {:induction false} PlusAtsMatch(s: string)
    ensures Matches(Plus(Char('@')), s) <==> s != [] && OnlyAts(s)
  {
    if Matches(Plus(Char('@')), s) {
      var i := Split(Char('@'), Star(Char('@')), s);
      AtsMatch(s[i..]);
      assert i == 1 && s[..1][0] == s[0];
      assert forall k | 1 <= k < |s| :: s[k] == s[1..][k - 1];
    }
    if s != [] && OnlyAts(s) {
      AtsMatch(s[1..]);
      assert s[..1][0] == s[0];
      Join(Char('@'), Star(Char('@')), s, 1);
    }
  }

  /** The length of `s` without the `@`s at its end. */
  function Trimmed(s: string): (n: nat)
    ensures n <= |s| && OnlyAts(s[n..]) && (n > 0 ==> s[n - 1] != '@')
  {
    if s == [] || s[|s| - 1] != '@' then |s|
    else
      var n := Trimmed(s[..|s| - 1]);
      assert s[n..] == s[..|s| - 1][n..] + [s[|s| - 1]];
      n
  }

  lemma {:induction false} ComponentSplit(s: string)
    requires IsComponent(s) && !OnlyAts(s)
    ensures Trimmed(s) > 0 && IsBlocks(s[..Trimmed(s)])
  {
    var n := Trimmed(s);
    assert s[0..] == s;
    var t := s[..n];
    assert forall k | 0 <= k < |t| :: t[k] == s[k];
  }

  lemma ComponentJoin(a: string, b: string)
    requires a != [] && IsBlocks(a) && OnlyAts(b)
    ensures IsComponent(a + b)
  {
    var s := a + b;
    forall k | 0 <= k < |s| - 1 ensures !Forbidden(s[k], s[k + 1]) {
      if k < |a| - 1 { assert !Forbidden(a[k], a[k + 1]); }
    }
  }

  /** The pattern of a component is its description. */
  lemma {:induction false} ComponentMatches(s: string)
    ensures Matches(Component, s) <==> IsComponent(s)
  {
    PlusAtsMatch(s);
    if Matches(Cat(Plus(Block), Ats), s) {
      var i := Split(Plus(Block), Ats, s);
      PlusBlocksMatch(s[..i]);
      AtsMatch(s[i..]);
      ComponentJoin(s[..i], s[i..]);
      assert s == s[..i] + s[i..];
    }
    if IsComponent(s) && !OnlyAts(s) {
      var n := Trimmed(s);
      ComponentSplit(s);
      PlusBlocksMatch(s[..n]);
      AtsMatch(s[n..]);
      Join(Plus(Block), Ats, s, n);
    }
  }

  // ---- separators and tails ----------------------------------------------------------------------------------------

  lemma {:induction false} SeparatorMatches(s: string)
    ensures Matches(Separator, s) <==> s == "/" || s == "./" || s == "."
  {
    var dot, slash := Char('.'), Char('/');
    if Matches(Cat(Option(dot), slash), s) {
      var i := Split(Option(dot), slash, s);
      assert Matches(Empty, s[..i]) || Matches(dot, s[..i]);
      assert s == s[..i] + s[i..];
    }
    if s == "/" {
      assert Matches(Empty, s[..0]) && Matches(Option(dot), s[..0]);
      assert s[0..] == s;
      Join(Option(dot), slash, s, 0);
    }
    if s == "./" {
      assert Matches(dot, s[..1]) && Matches(Option(dot), s[..1]);
      assert s[1..] == "/";
      Join(Option(dot), slash, s, 1);
    }
  }

  /** The component a good name starts with. */
  function Leading(s: string): (n: nat)
    ensures n <= |s| && (forall k | 0 <= k < n :: !Edge(s[k])) && (n == |s| || Edge(s[n]))
  {
    if s == [] || Edge(s[0]) then 0
    else
      var n := Leading(s[1..]);
      assert forall k | 1 <= k < n + 1 :: s[k] == s[1..][k - 1];
      n + 1
  }

  lemma {:induction false} LeadingComponent(s: string)
    requires GoodName(s)
    ensures Leading(s) > 0 && IsComponent(s[..Leading(s)])
  {
    var c := s[..Leading(s)];
    assert forall k | 0 <= k < |c| :: c[k] == s[k];
  }

  /** What follows the first component: nothing, or a separator and a good name. */
  predicate GoodTail(t: string) {
    t == [] || (exists n | 0 < n <= 2 && n < |t| :: GoodTailAt(t, n))
  }

  predicate GoodTailAt(t: string, n: nat) {
    n < |t| && (t[..n] == "/" || t[..n] == "./" || t[..n] == ".") && GoodName(t[n..])
  }

  /** A separator, then a good name. */
  lemma TailFrom(t: string, n: nat)
    requires n <= |t| && (t[..n] == "/" || t[..n] == "./" || t[..n] == ".") && GoodName(t[n..])
    ensures GoodTail(t)
  {
    assert 0 < n <= 2 && n < |t|;
    assert GoodTailAt(t, n);
  }

  /** Where a good name's separator ends. */
  lemma SeparatorEnds(s: string, n: nat) returns (m: nat)
    requires GoodName(s) && 0 < n < |s| && Edge(s[n])
    ensures n < m < |s| && !Edge(s[m])
    ensures s[n..m] == "/" || s[n..m] == "./" || s[n..m] == "."
  {
    assert n + 1 < |s|;
    assert !Forbidden(s[n], s[n + 1]);
    if s[n] == '.' && s[n + 1] == '/' {
      assert n + 2 < |s|;
      assert !Forbidden(s[n + 1], s[n + 2]);
      m := n + 2;
      assert s[n..m] == [s[n], s[n + 1]];
    } else {
      m := n + 1;
      assert s[n..m] == [s[n]];
    }
  }

  lemma {:induction false} NameSplits(s: string)
    requires GoodName(s)
    ensures GoodTail(s[Leading(s)..])
  {
    LeadingComponent(s);
    var n := Leading(s);
    if n < |s| {
      var m := SeparatorEnds(s, n);
      GoodSuffix(s, m);
      Slices(s, n, m);
      TailFrom(s[n..], m - n);
    }
  }

  lemma Slices(s: string, n: nat, m: nat)
    requires n <= m <= |s|
    ensures s[n..][..m - n] == s[n..m] && s[n..][m - n..] == s[m..]
    ensures s[..m][..n] == s[..n] && s[..m][n..] == s[n..m] && s[n..m] + s[m..] == s[n..]
  {
  }

  lemma GoodSuffix(s: string, i: nat)
    requires GoodName(s) && i < |s| && !Edge(s[i])
    ensures GoodName(s[i..])
  {
    var t := s[i..];
    assert forall k | 0 <= k < |t| :: t[k] == s[i + k];
    forall k | 0 <= k < |t| - 1 ensures !Forbidden(t[k], t[k + 1]) {
      assert !Forbidden(s[i + k], s[i + k + 1]);
    }
  }

  lemma NameJoins(c: string, t: string)
    requires IsComponent(c) && GoodTail(t)
    ensures GoodName(c + t)
  {
    if t == [] {
      assert c + t == c;
      ComponentIsGood(c);
    } else {
      var n :| 0 < n <= 2 && n < |t| && GoodTailAt(t, n);
      JoinsAt(c, t, n);
    }
  }

  lemma JoinsAt(c: string, t: string, n: nat)
    requires IsComponent(c) && GoodTailAt(t, n)
    ensures GoodName(c + t)
  {
    PartsJoin(c, t[..n], t[n..]);
    Rejoin(c, t, n);
  }

  lemma Rejoin(c: string, t: string, n: nat)
    requires n <= |t|
    ensures c + t[..n] + t[n..] == c + t
  {
  }

  lemma ComponentIsGood(c: string)
    requires IsComponent(c)
    ensures GoodName(c)
  {
    assert ComponentChar(c[0]) && ComponentChar(c[|c| - 1]);
  }

  lemma PartsJoin(c: string, sep: string, rest: string)
    requires IsComponent(c) && GoodName(rest) && (sep == "/" || sep == "./" || sep == ".")
    ensures GoodName(c + sep + rest)
  {
    var s := c + sep + rest;
    var m := |c| + |sep|;
    forall k | 0 <= k < |s| - 1 ensures !Forbidden(s[k], s[k + 1]) {
      if k < |c| - 1 {
        assert !Forbidden(c[k], c[k + 1]);
      } else if k >= m {
        assert !Forbidden(rest[k - m], rest[k - m + 1]);
      }
    }
    forall k | 0 <= k < |s| ensures Allowed(s[k]) {}
  }

  lemma {:induction false} TailMatches(t: string)
    ensures Matches(Tail, t) <==> GoodTail(t)
    decreases |t|, 1
  {
    if t != [] {
      if Matches(Tail, t) {
        var i := Unroll(Cat(Separator, Component), t);
        var n := Split(Separator, Component, t[..i]);
        TailPiece(t, i, n);
      }
      if GoodTail(t) {
        var n :| 0 < n <= 2 && n < |t| && GoodTailAt(t, n);
        TailRolls(t, n);
      }
    }
  }

  lemma {:induction false} TailPiece(t: string, i: nat, n: nat)
    requires n <= i <= |t| && 0 < i
    requires Matches(Separator, t[..i][..n]) && Matches(Component, t[..i][n..]) && Matches(Tail, t[i..])
    ensures GoodTail(t)
    decreases |t|, 0
  {
    Slices(t, n, i);
    SeparatorMatches(t[..n]);
    ComponentMatches(t[n..i]);
    TailMatches(t[i..]);
    NameJoins(t[n..i], t[i..]);
    TailFrom(t, n);
  }

  lemma {:induction false} TailRolls(t: string, n: nat)
    requires 0 < n <= 2 && GoodTailAt(t, n)
    ensures Matches(Tail, t)
    decreases |t|, 0
  {
    var name := t[n..];
    var k := Leading(name);
    LeadingComponent(name);
    NameSplits(name);
    SeparatorMatches(t[..n]);
    ComponentMatches(name[..k]);
    TailMatches(name[k..]);
    var i := n + k;
    Slices(t, n, i);
    Join(Separator, Component, t[..i], n);
    Roll(Cat(Separator, Component), t, i);
  }

  // ---- the theorems -------------------------------------------------------------------------------------------------

  /** The pattern of a tag name accepts exactly the well-formed names. */
  lemma {:induction false} TagPatternMeans(s: string)
    ensures Matches(TagPattern, s) <==> GoodName(s)
  {
    if Matches(TagPattern, s) {
      var i := Split(Component, Tail, s);
      ComponentMatches(s[..i]);
      TailMatches(s[i..]);
      NameJoins(s[..i], s[i..]);
      assert s == s[..i] + s[i..];
    }
    if GoodName(s) {
      var n := Leading(s);
      LeadingComponent(s);
      NameSplits(s);
      ComponentMatches(s[..n]);
      TailMatches(s[n..]);
      Join(Component, Tail, s, n);
    }
  }

  lemma {:induction false} LiteralMatches(lit: string, s: string)
    ensures Matches(Literal(lit), s) <==> s == lit
    decreases |lit|
  {
    if lit != [] {
      if Matches(Literal(lit), s) {
        var i := Split(Char(lit[0]), Literal(lit[1..]), s);
        LiteralMatches(lit[1..], s[i..]);
        assert s == s[..i] + s[i..];
      }
      if s == lit {
        LiteralMatches(lit[1..], s[1..]);
        Join(Char(lit[0]), Literal(lit[1..]), s, 1);
      }
    }
  }

  /** The pattern of a ref name accepts `refs/` followed by a well-formed name, and nothing else. */
  lemma {:induction false} RefPatternMeans(s: string)
    ensures Matches(RefPattern, s) <==> RefsPrefix <= s && GoodName(s[|RefsPrefix|..])
  {
    if Matches(RefPattern, s) {
      var i := Split(Literal(RefsPrefix), TagPattern, s);
      LiteralMatches(RefsPrefix, s[..i]);
      TagPatternMeans(s[i..]);
    }
    if RefsPrefix <= s && GoodName(s[|RefsPrefix|..]) {
      LiteralMatches(RefsPrefix, s[..|RefsPrefix|]);
      TagPatternMeans(s[|RefsPrefix|..]);
      Join(Literal(RefsPrefix), TagPattern, s, |RefsPrefix|);
    }
  }

  predicate IsFirst(s: string) {
    IsComponent(s) && !OnlyAts(s) && s[0] != '-'
  }

  lemma FirstJoins(a: string, b: string, c: string)
    requires IsBlock(a) && a[0] != '-' && IsBlocks(b) && OnlyAts(c)
    ensures IsFirst(a + b + c)
  {
    BlocksJoin(a, b);
    ComponentJoin(a + b, c);
    var s := a + b + c;
    assert s[0] == a[0];
    assert s[|a| - 1] == a[|a| - 1] != '@';
  }

  lemma RestMatches(s: string, n: nat, k: nat)
    requires k <= n <= |s| && Matches(Star(Block), s[..n][k..]) && Matches(Ats, s[n..])
    ensures Matches(Cat(Star(Block), Ats), s[k..])
  {
    Slices(s, k, n);
    Join(Star(Block), Ats, s[k..], n - k);
  }

  lemma {:induction false} FirstSplits(s: string)
    requires IsFirst(s)
    ensures Matches(First, s)
  {
    var n := Trimmed(s);
    ComponentSplit(s);
    var blocks := s[..n];
    var k := BlockLength(blocks);
    assert blocks[..k] == s[..k] && s[..k][0] == s[0];
    FirstBlockMatches(s[..k]);
    RestOfBlocks(blocks, k);
    BlocksMatch(blocks[k..]);
    AtsMatch(s[n..]);
    RestMatches(s, n, k);
    Join(FirstBlock, Cat(Star(Block), Ats), s, k);
  }

  lemma Thirds(s: string, i: nat, j: nat)
    requires i <= |s| && j <= |s[i..]|
    ensures s[..i] + s[i..][..j] + s[i..][j..] == s
  {
  }

  /** The first component of a branch: a component that does not start with `-` and is not `@`s alone. */
  lemma {:induction false} FirstMatches(s: string)
    ensures Matches(First, s) <==> IsFirst(s)
  {
    if Matches(First, s) {
      var i := Split(FirstBlock, Cat(Star(Block), Ats), s);
      var j := Split(Star(Block), Ats, s[i..]);
      FirstBlockMatches(s[..i]);
      BlocksMatch(s[i..][..j]);
      AtsMatch(s[i..][j..]);
      FirstJoins(s[..i], s[i..][..j], s[i..][j..]);
      Thirds(s, i, j);
    }
    if IsFirst(s) {
      FirstSplits(s);
    }
  }

  lemma {:induction false} FirstBlockMatches(s: string)
    ensures Matches(FirstBlock, s) <==> IsBlock(s) && s[0] != '-'
  {
    var many := Cat(Plus(Char('@')), Class(Plain));
    if Matches(many, s) {
      var i := Split(Plus(Char('@')), Class(Plain), s);
      PlusAtsMatch(s[..i]);
      assert i == |s| - 1;
      assert s[..i][0] == s[0];
    }
    if IsBlock(s) && |s| > 1 {
      var i := |s| - 1;
      assert s[..i][0] == s[0];
      PlusAtsMatch(s[..i]);
      Join(Plus(Char('@')), Class(Plain), s, i);
    }
    assert Matches(Char('{'), s) <==> s == "{";
    if |s| == 1 { assert s[..0] == []; }
  }

  /** The pattern of a branch name accepts exactly the well-formed names with no leading `-` whose first
      component is not made of `@` alone. */
  lemma {:induction false} BranchPatternMeans(s: string)
    ensures Matches(BranchPattern, s) <==> GoodName(s) && s[0] != '-' && !OnlyAts(s[..Leading(s)])
  {
    if Matches(BranchPattern, s) {
      var i := Split(First, Tail, s);
      FirstMatches(s[..i]);
      TailMatches(s[i..]);
      NameJoins(s[..i], s[i..]);
      assert s == s[..i] + s[i..];
      LeadingOf(s[..i], s[i..]);
    }
    if GoodName(s) && s[0] != '-' && !OnlyAts(s[..Leading(s)]) {
      var n := Leading(s);
      LeadingComponent(s);
      NameSplits(s);
      FirstMatches(s[..n]);
      TailMatches(s[n..]);
      Join(First, Tail, s, n);
    }
  }

  lemma {:induction false} LeadingOf(c: string, t: string)
    requires IsComponent(c) && GoodTail(t)
    ensures Leading(c + t) == |c|
  {
    var s := c + t;
    var n := Leading(s);
    if t != [] {
      var k :| 0 < k <= 2 && k < |t| && GoodTailAt(t, k);
      assert t[..k][0] == t[0] == s[|c|];
    }
    assert forall j | 0 <= j < |c| :: s[j] == c[j];
  }

  // ---- git's rule in full ------------------------------------------------------------------------------------------

  /** A component of `s` ends in `.lock`, at position `i`. */
  predicate LockAt(s: string, i: nat) {
    i + 5 <= |s| && s[i..i + 5] == ".lock" && (i + 5 == |s| || s[i + 5] == '/')
  }

  /** `git check-ref-format` accepts the full ref name: well formed, in at least two components, no
      component ending in `.lock`. */
  ghost predicate GitAccepts(ref: string) {
    GoodName(ref) && '/' in ref && forall i: nat :: !LockAt(ref, i)
  }

  /** `noLock` */
  predicate EndsInLock(s: string) {
    |s| >= 5 && s[|s| - 5..] == ".lock"
  }

  predicate LockSlashAt(s: string, i: nat) {
    i + 6 <= |s| && s[i..i + 6] == ".lock/"
  }

  /** The test a caller can make: `.lock` neither ends the name nor stands before a slash. */
  ghost predicate NoLockInside(s: string) {
    !EndsInLock(s) && forall i: nat :: !LockSlashAt(s, i)
  }

  lemma LockAtIs(s: string, i: nat)
    ensures LockAt(s, i) <==> LockSlashAt(s, i) || (i + 5 == |s| && EndsInLock(s))
  {
    if i + 6 <= |s| {
      var slash := s[i..i + 6];
      assert slash == s[i..i + 5] + [s[i + 5]];
      assert ".lock/" == ".lock" + ['/'];
      if slash == ".lock/" {
        assert slash[..5] == s[i..i + 5] && slash[5] == s[i + 5];
      }
    } else if i + 5 == |s| {
      assert s[|s| - 5..] == s[i..i + 5];
    }
  }

  lemma NoLockComponents(s: string)
    ensures (forall i: nat :: !LockAt(s, i)) <==> NoLockInside(s)
  {
    forall i: nat ensures LockAt(s, i) <==> LockSlashAt(s, i) || (i + 5 == |s| && EndsInLock(s)) {
      LockAtIs(s, i);
    }
    if EndsInLock(s) {
      assert LockAt(s, |s| - 5);
    }
  }

  // ---- a name under a directory --------------------------------------------------------------------------------------

  predicate NoDot(s: string) {
    forall i | 0 <= i < |s| :: s[i] != '.'
  }

  /** Under a well-formed directory the full name is well formed exactly when the name is. */
  lemma {:induction false} UnderDirectory(dir: string, name: string)
    requires GoodName(dir)
    ensures GoodName(dir + "/" + name) <==> GoodName(name)
  {
    var s := dir + "/" + name;
    var n := |dir| + 1;
    assert s[n..] == name && s[n - 1] == '/';
    if GoodName(s) {
      assert s[|s| - 1] != '/';
      assert !Forbidden(s[n - 1], s[n]);
      GoodSuffix(s, n);
    }
    if GoodName(name) {
      forall k | 0 <= k < |s| - 1 ensures !Forbidden(s[k], s[k + 1]) {
        if k < |dir| - 1 {
          assert !Forbidden(dir[k], dir[k + 1]);
        } else if k >= n {
          assert !Forbidden(name[k - n], name[k - n + 1]);
        }
      }
      forall k | 0 <= k < |s| ensures Allowed(s[k]) {}
    }
  }

  lemma LocksShift(pre: string, name: string)
    requires NoDot(pre)
    ensures (forall i: nat :: !LockAt(pre + name, i)) <==> (forall i: nat :: !LockAt(name, i))
  {
    var s := pre + name;
    forall j: nat ensures LockAt(s, |pre| + j) <==> LockAt(name, j) {
      if j + 5 <= |name| {
        assert s[|pre| + j..|pre| + j + 5] == name[j..j + 5];
      }
    }
    forall i: nat ensures LockAt(s, i) ==> i >= |pre| {
      if i < |pre| && i + 5 <= |s| {
        assert s[i..i + 5][0] == pre[i];
      }
    }
    if i: nat :| LockAt(s, i) {
      assert LockAt(name, i - |pre|);
    }
    if j: nat :| LockAt(name, j) {
      assert LockAt(s, |pre| + j);
    }
  }

  /** git accepts a name under a directory of its own exactly when the name is well formed and `.lock`
      neither ends it nor stands before a slash in it. */
  lemma GitUnder(dir: string, name: string)
    requires GoodName(dir) && NoDot(dir)
    ensures GitAccepts(dir + "/" + name) <==> GoodName(name) && NoLockInside(name)
  {
    UnderDirectory(dir, name);
    var pre := dir + "/";
    assert dir + "/" + name == pre + name;
    assert (pre + name)[|dir|] == '/';
    LocksShift(pre, name);
    NoLockComponents(name);
  }

  const Tags: string := "refs/tags"
  const Heads: string := "refs/heads"

  lemma DirectoriesAreGood()
    ensures GoodName("refs") && NoDot("refs") && GoodName(Tags) && NoDot(Tags) && GoodName(Heads) && NoDot(Heads)
  {
    GoodDirectory("refs", "tags");
    GoodDirectory("refs", "heads");
    assert "refs" + "/" + "tags" == Tags && "refs" + "/" + "heads" == Heads;
  }

  lemma {:induction false} GoodDirectory(a: string, b: string)
    requires IsWord(a) && IsWord(b)
    ensures GoodName(a) && GoodName(a + "/" + b) && NoDot(a) && NoDot(a + "/" + b)
  {
    WordIsGood(a);
    WordIsGood(b);
    UnderDirectory(a, b);
  }

  predicate IsWord(s: string) {
    s != [] && forall i | 0 <= i < |s| :: 'a' <= s[i] <= 'z'
  }

  lemma WordIsGood(s: string)
    requires IsWord(s)
    ensures GoodName(s)
  {
  }

  // ---- what the patterns leave of it -----------------------------------------------------------------------------------

  /** A release's tag name has the pattern alone: git accepts the tag exactly when the pattern does and
      `.lock` neither ends the name nor stands before a slash. */
  lemma {:induction false} TagsAreGitIff(tag: string)
    ensures GitAccepts(Tags + "/" + tag) <==> Matches(TagPattern, tag) && NoLockInside(tag)
  {
    DirectoriesAreGood();
    GitUnder(Tags, tag);
    TagPatternMeans(tag);
  }

  /** A ref update has the pattern and `noLock`: of the names under `refs/` git accepts exactly those that
      pass both and hold no `.lock/`. (The refs of a pull request have the pattern alone: `EndLockPasses`.) */
  lemma {:induction false} RefsAreGitIff(ref: string)
    requires RefsPrefix <= ref
    ensures GitAccepts(ref) <==> Matches(RefPattern, ref) && !EndsInLock(ref) && forall i: nat :: !LockSlashAt(ref, i)
  {
    var name := ref[|RefsPrefix|..];
    DirectoriesAreGood();
    GitUnder("refs", name);
    assert ref == "refs" + "/" + name;
    RefPatternMeans(ref);
    NoLockComponents(ref);
    NoLockComponents(name);
    LocksShift(RefsPrefix, name);
    assert RefsPrefix + name == ref;
  }

  /** A default branch has the pattern alone, which is also stricter than git: it accepts the branches git
      accepts that do not start with `-` and whose first component is not `@`s alone, and besides
      them exactly those where `.lock` ends the name or stands before a slash. */
  lemma {:induction false} BranchesAreGitIff(branch: string)
    ensures Matches(BranchPattern, branch) && NoLockInside(branch) <==>
      GitAccepts(Heads + "/" + branch) && branch != [] && branch[0] != '-' && !OnlyAts(branch[..Leading(branch)])
  {
    DirectoriesAreGood();
    GitUnder(Heads, branch);
    BranchPatternMeans(branch);
  }

  /** What a pattern lets through and git does not. */
  lemma LocksThatPass()
    ensures Matches(TagPattern, "v1.lock") && !GitAccepts(Tags + "/" + "v1.lock")
    ensures Matches(BranchPattern, "m.lock") && !GitAccepts(Heads + "/" + "m.lock")
    ensures var ref := "refs/heads/a.lock/b"; Matches(RefPattern, ref) && !EndsInLock(ref) && !GitAccepts(ref)
    ensures var ref := "refs/heads/m.lock"; Matches(RefPattern, ref) && !GitAccepts(ref)
  {
    TagLockPasses();
    BranchLockPasses();
    RefLockPasses();
    PatchLockPasses();
  }

  lemma TagLockPasses()
    ensures Matches(TagPattern, "v1.lock") && !GitAccepts(Tags + "/" + "v1.lock")
  {
    var s := "v1.lock";
    assert forall i | 0 <= i < |s| - 1 :: !Forbidden(s[i], s[i + 1]);
    TagPatternMeans(s);
    assert s[2..] == ".lock";
    TagsAreGitIff(s);
  }

  lemma BranchLockPasses()
    ensures Matches(BranchPattern, "m.lock") && !GitAccepts(Heads + "/" + "m.lock")
  {
    var s := "m.lock";
    assert forall i | 0 <= i < |s| - 1 :: !Forbidden(s[i], s[i + 1]);
    assert s[1..] == ".lock";
    LeadingIs(s, 1);
    assert s[..1][0] == 'm';
    BranchPatternMeans(s);
    BranchesAreGitIff(s);
  }

  lemma {:induction false} LeadingIs(s: string, n: nat)
    requires n < |s| && Edge(s[n]) && forall k | 0 <= k < n :: !Edge(s[k])
    ensures Leading(s) == n
  {
  }

  lemma LockSlashBetween(a: string, lock: string, b: string)
    requires lock == ".lock/"
    ensures LockSlashAt(a + lock + b, |a|)
  {
    assert (a + lock + b)[|a|..|a| + 6] == lock;
  }

  lemma MiddleLock(n: string)
    requires n == "a.lock/b"
    ensures GoodName(n) && LockSlashAt(n, 1)
  {
    assert n == "a" + ".lock/" + "b";
    LockSlashBetween("a", ".lock/", "b");
    assert forall i | 0 <= i < |n| - 1 :: !Forbidden(n[i], n[i + 1]);
  }

  lemma EndUnder(dir: string, n: string)
    requires |n| >= 5
    ensures EndsInLock(dir + n) <==> EndsInLock(n)
  {
    var s := dir + n;
    assert s[|s| - 5..] == n[|n| - 5..];
  }

  lemma {:induction false} UnderRefs(dir: string, n: string)
    requires IsWord(dir) && GoodName(n)
    ensures Matches(RefPattern, "refs/" + dir + "/" + n)
  {
    var ref := "refs/" + dir + "/" + n;
    WordIsGood(dir);
    UnderDirectory(dir, n);
    assert ref[5..] == dir + "/" + n;
    RefPatternMeans(ref);
  }

  /** Every branch name with `.lock/` in it passes as a ref, and git refuses it. */
  lemma MiddleLockPasses(n: string, i: nat)
    requires GoodName(n) && LockSlashAt(n, i) && !EndsInLock(n)
    ensures var ref := "refs/" + "heads" + "/" + n; Matches(RefPattern, ref) && !EndsInLock(ref) && !GitAccepts(ref)
  {
    UnderRefs("heads", n);
    DirectoriesAreGood();
    GitUnder(Heads, n);
    assert "refs/" + "heads" == Heads;
    EndUnder("refs/" + "heads" + "/", n);
  }

  /** Every branch name that ends in `.lock` passes as a ref of a pull request, and git refuses it. */
  lemma EndLockPasses(n: string)
    requires GoodName(n) && EndsInLock(n)
    ensures var ref := "refs/" + "heads" + "/" + n; Matches(RefPattern, ref) && !GitAccepts(ref)
  {
    UnderRefs("heads", n);
    DirectoriesAreGood();
    GitUnder(Heads, n);
    assert "refs/" + "heads" == Heads;
  }

  lemma LockedRef(n: string)
    requires n == "a.lock/b"
    ensures "refs/" + "heads" + "/" + n == "refs/heads/a.lock/b" && !EndsInLock(n)
  {
    assert n[3..][4] == 'b';
  }

  lemma RefLockPasses()
    ensures var ref := "refs/heads/a.lock/b"; Matches(RefPattern, ref) && !EndsInLock(ref) && !GitAccepts(ref)
  {
    var n := "a.lock/b";
    MiddleLock(n);
    LockedRef(n);
    MiddleLockPasses(n, 1);
  }

  lemma EndLock(n: string)
    requires n == "m.lock"
    ensures GoodName(n) && EndsInLock(n) && "refs/" + "heads" + "/" + n == "refs/heads/m.lock"
  {
    assert forall i | 0 <= i < |n| - 1 :: !Forbidden(n[i], n[i + 1]);
    assert n[1..] == ".lock";
  }

  lemma PatchLockPasses()
    ensures var ref := "refs/heads/m.lock"; Matches(RefPattern, ref) && !GitAccepts(ref)
  {
    EndLock("m.lock");
    EndLockPasses("m.lock");
  }
}
