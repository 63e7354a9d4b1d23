/** `$ref` resolution: file name, `#`, and a JSON Pointer (section 4 of RFC 6901). */
module JsonPointers {
  import opened JsonValues

  /** `s.replace("~" + mark, c)`: left to right, no overlaps. */
  function ReplaceTilde(s: string, mark: char, c: char): (r: string) {
    if |s| < 2 then s
    else if s[0] == '~' && s[1] == mark then [c] + ReplaceTilde(s[2..], mark, c)
    else [s[0]] + ReplaceTilde(s[1..], mark, c)
  }

  function Unescape(part: string): (r: string) {
    ReplaceTilde(ReplaceTilde(part, '1', '/'), '0', '~')
  }

  /** How RFC 6901 writes a key inside a pointer. */
  function Escape(key: string): (r: string)
    ensures '/' !in r && (key != "" ==> r != "")
  {
    if key == "" then ""
    else (if key[0] == '~' then "~0" else if key[0] == '/' then "~1" else [key[0]]) + Escape(key[1..])
  }

  /** The non-empty pieces between slashes. */
  function Parts(pointer: string): (r: seq<string>)
    decreases |pointer|
  {
    var n := Until(pointer, '/');
    (if n == 0 then [] else [pointer[..n]]) + (if n == |pointer| then [] else Parts(pointer[n + 1..]))
  }

  /** The first position of `c`, or the length. */
  function Until(s: string, c: char): (n: nat)
    ensures n <= |s| && c !in s[..n] && (n < |s| ==> s[n] == c)
  {
    if s == "" || s[0] == c then 0
    else
      var n := Until(s[1..], c);
      assert s[..n + 1] == [s[0]] + s[1..][..n];
      n + 1
  }

  function BaseName(path: string): (r: string)
    decreases |path|
  {
    var n := Until(path, '/');
    if n == |path| then path else BaseName(path[n + 1..])
  }

  /** `node[part]` for each part in turn; a missing key or a node that is no dictionary raises. */
  function Walk(node: Json, keys: seq<string>): (r: Option<Json>) {
    if keys == [] then Some(node)
    else
      var next := Get(node, keys[0]);
      if next.None? then None else Walk(next.value, keys[1..])
  }

  function Unescaped(parts: seq<string>): (r: seq<string>) {
    seq(|parts|, i requires 0 <= i < |parts| => Unescape(parts[i]))
  }

  datatype Target = Target(node: Json, file: string)

  function Resolve(files: map<string, Json>, ref: string, base: string): (r: Option<Target>) {
    var n := Until(ref, '#');
    var name := if n == 0 then base else BaseName(ref[..n]);
    var pointer := if n == |ref| then "" else ref[n + 1..];
    if name !in files then None
    else
      var found := Walk(files[name], Unescaped(Parts(pointer)));
      if found.None? then None else Some(Target(found.value, name))
  }

  /** The pointer RFC 6901 writes for a path of keys. */
  function Pointer(keys: seq<string>): (r: string) {
    if keys == [] then "" else "/" + Escape(keys[0]) + Pointer(keys[1..])
  }

  /** After the first replacement only the escaped tildes are left. */
  function Halfway(key: string): (r: string) {
    if key == "" then "" else (if key[0] == '~' then "~0" else [key[0]]) + Halfway(key[1..])
  }

  lemma {:induction false} FirstPass(key: string)
    ensures ReplaceTilde(Escape(key), '1', '/') == Halfway(key)
  {
    if key != "" {
      var t := Escape(key[1..]);
      FirstPass(key[1..]);
      if key[0] == '~' {
        assert Escape(key) == ['~', '0'] + t;
        Kept('~', ['0'] + t, '1', '/');
        assert t == (['0'] + t)[1..];
        Kept('0', t, '1', '/');
      } else if key[0] == '/' {
        assert Escape(key) == ['~', '1'] + t;
        assert (['~', '1'] + t)[2..] == t;
      } else {
        Kept(key[0], t, '1', '/');
      }
    }
  }

  /** A character that starts no escape is copied. */
  lemma {:induction false} Kept(a: char, t: string, mark: char, c: char)
    requires a != '~' || (t != "" && t[0] != mark)
    ensures ReplaceTilde([a] + t, mark, c) == [a] + ReplaceTilde(t, mark, c)
  {
    assert ([a] + t)[1..] == t;
  }

  lemma {:induction false} SecondPass(key: string)
    ensures ReplaceTilde(Halfway(key), '0', '~') == key
  {
    if key != "" {
      var t := Halfway(key[1..]);
      SecondPass(key[1..]);
      if key[0] == '~' {
        assert Halfway(key) == ['~', '0'] + t;
        assert (['~', '0'] + t)[2..] == t;
      } else {
        Kept(key[0], t, '0', '~');
      }
      assert key == [key[0]] + key[1..];
    }
  }

  /** Undoing `~1` before `~0` gives every key back. */
  lemma {:induction false} EscapeRoundTrip(key: string)
    ensures Unescape(Escape(key)) == key
  {
    FirstPass(key);
    SecondPass(key);
  }

  lemma {:induction false} UntilHere(a: string, c: char, rest: string)
    requires c !in a
    ensures Until(a + [c] + rest, c) == |a|
  {
    var s := a + [c] + rest;
    assert s[|a|] == c;
    assert forall i | 0 <= i < |a| :: s[i] == a[i];
    assert forall i | 0 <= i < Until(s, c) :: s[i] == s[..Until(s, c)][i];
  }

  lemma {:induction false} UntilNone(a: string, c: char)
    requires c !in a
    ensures Until(a, c) == |a|
  {
  }

  /** What is left of a path once its empty keys are dropped. */
  function NonEmpty(keys: seq<string>): (r: seq<string>) {
    if keys == [] then [] else (if keys[0] == "" then [] else [keys[0]]) + NonEmpty(keys[1..])
  }

  lemma {:induction false} PointerParts(keys: seq<string>)
    ensures Unescaped(Parts(Pointer(keys))) == NonEmpty(keys)
  {
    if keys != [] {
      PointerParts(keys[1..]);
      EscapeRoundTrip(keys[0]);
      PointerStep(keys);
      if keys[0] != "" {
        UnescapedStep(Escape(keys[0]), Parts(Pointer(keys[1..])));
      }
    }
  }

  lemma {:induction false} PointerStep(keys: seq<string>)
    requires keys != []
    ensures Parts(Pointer(keys)) == (if keys[0] == "" then [] else [Escape(keys[0])]) + Parts(Pointer(keys[1..]))
  {
    var e, rest := Escape(keys[0]), Pointer(keys[1..]);
    assert "/" + e + rest == "/" + (e + rest);
    LeadingSlash(e + rest);
    if keys[0] == "" {
      assert e + rest == rest;
    } else {
      FirstPart(e, keys[1..]);
    }
  }

  lemma UnescapedStep(e: string, parts: seq<string>)
    ensures Unescaped([e] + parts) == [Unescape(e)] + Unescaped(parts)
  {
  }

  lemma {:induction false} LeadingSlash(s: string)
    ensures Parts("/" + s) == Parts(s)
  {
    assert Until("/" + s, '/') == 0;
    assert ("/" + s)[1..] == s;
  }

  lemma {:induction false} FirstPart(e: string, keys: seq<string>)
    requires '/' !in e && e != ""
    ensures Parts(e + Pointer(keys)) == [e] + Parts(Pointer(keys))
  {
    if keys == [] {
      assert e + Pointer(keys) == e;
      UntilNone(e, '/');
    } else {
      var rest := Escape(keys[0]) + Pointer(keys[1..]);
      assert Pointer(keys) == "/" + rest;
      assert e + Pointer(keys) == e + ['/'] + rest;
      UntilHere(e, '/', rest);
      LeadingSlash(rest);
      assert (e + ['/'] + rest)[..|e|] == e && (e + ['/'] + rest)[|e| + 1..] == rest;
    }
  }

  /** A reference written by RFC 6901, for every path of keys, resolves to what the keys that are not
      empty reach, in the file of the name without its directory (in the file it stands in when it names none). */
  lemma {:induction false} ReferenceDropsEmptyKeys(files: map<string, Json>, name: string, keys: seq<string>, base: string)
    requires '#' !in name
    ensures
      var file := if name == "" then base else BaseName(name);
      Resolve(files, name + "#" + Pointer(keys), base) ==
        if file in files && Walk(files[file], NonEmpty(keys)).Some?
        then Some(Target(Walk(files[file], NonEmpty(keys)).value, file)) else None
  {
    var ref := name + ['#'] + Pointer(keys);
    UntilHere(name, '#', Pointer(keys));
    assert ref[..|name|] == name && ref[|name| + 1..] == Pointer(keys);
    PointerParts(keys);
  }

  // ----- The node RFC 6901 names -----

  predicate Digit(c: char) {
    '0' <= c <= '9'
  }

  /** An array index: digits without a leading zero. */
  predicate IsIndex(key: string) {
    key == "0" || (key != "" && key[0] != '0' && forall i | 0 <= i < |key| :: Digit(key[i]))
  }

  function IndexOf(key: string): (n: nat)
    requires forall i | 0 <= i < |key| :: Digit(key[i])
  {
    if key == "" then 0
    else
      assert Digit(key[|key| - 1]);
      10 * IndexOf(key[..|key| - 1]) + (key[|key| - 1] as int - '0' as int)
  }

  /** Evaluation by section 4 of RFC 6901: members of objects, elements of arrays. */
  function Evaluate(node: Json, keys: seq<string>): (r: Option<Json>) {
    if keys == [] then Some(node)
    else
      match node
      case Obj(m) => if keys[0] in m then Evaluate(m[keys[0]], keys[1..]) else None
      case Arr(xs) => if IsIndex(keys[0]) && IndexOf(keys[0]) < |xs| then Evaluate(xs[IndexOf(keys[0])], keys[1..]) else None
      case _ => None
  }

  predicate Plain(keys: seq<string>) {
    forall i | 0 <= i < |keys| :: keys[i] != "" && !IsIndex(keys[i])
  }

  lemma {:induction false} PlainPathsAgree(node: Json, keys: seq<string>)
    requires Plain(keys)
    ensures NonEmpty(keys) == keys && Walk(node, keys) == Evaluate(node, keys)
    decreases |keys|
  {
    if keys != [] {
      var next := Get(node, keys[0]);
      PlainPathsAgree(if next.Some? then next.value else node, keys[1..]);
    }
  }

  /** A document whose one path is `keys`: arrays where a key is an index, objects elsewhere. */
  function Probe(keys: seq<string>): (r: Json) {
    if keys == [] then Null
    else if IsIndex(keys[0]) then
      var n := IndexOf(keys[0]);
      Arr(seq(n, i requires 0 <= i < n => Null) + [Probe(keys[1..])])
    else Obj(map[keys[0] := Probe(keys[1..])])
  }

  lemma {:induction false} ProbeIsReached(keys: seq<string>)
    ensures Evaluate(Probe(keys), keys) == Some(Null)
  {
    if keys != [] {
      ProbeIsReached(keys[1..]);
    }
  }

  lemma {:induction false} ProbeIsMissed(keys: seq<string>)
    requires !Plain(keys)
    ensures Walk(Probe(keys), NonEmpty(keys)) != Some(Null)
  {
    if keys[0] == "" {
      var rest := NonEmpty(keys[1..]);
      NonEmptyIs(keys[1..]);
      assert NonEmpty(keys) == rest;
      assert rest != [] ==> Get(Probe(keys), rest[0]).None?;
    } else {
      assert NonEmpty(keys)[0] == keys[0] && NonEmpty(keys)[1..] == NonEmpty(keys[1..]);
      if !IsIndex(keys[0]) {
        assert !Plain(keys[1..]);
        ProbeIsMissed(keys[1..]);
      }
    }
  }

  lemma {:induction false} NonEmptyIs(keys: seq<string>)
    ensures forall i | 0 <= i < |NonEmpty(keys)| :: NonEmpty(keys)[i] != ""
  {
    if keys != [] {
      NonEmptyIs(keys[1..]);
    }
  }

  /** The code follows a path to the node RFC 6901 names, in every document, exactly when no key of the
      path is empty and none is an array index. */
  lemma {:induction false} ReachesRfcNodeIff(keys: seq<string>)
    ensures (forall node :: Walk(node, NonEmpty(keys)) == Evaluate(node, keys)) <==> Plain(keys)
  {
    if Plain(keys) {
      forall node ensures Walk(node, NonEmpty(keys)) == Evaluate(node, keys) {
        PlainPathsAgree(node, keys);
      }
    } else {
      ProbeIsReached(keys);
      ProbeIsMissed(keys);
    }
  }
}
