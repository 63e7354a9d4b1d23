/** The literals a `where` condition may hold: what is a value of a property, what `literal_problem`
    asks, and how far the two agree. */
module Literals {
  import opened JsonValues
  import opened PropertyKinds

  predicate Base58(c: char) {
    ('1' <= c <= '9' || 'A' <= c <= 'Z' || 'a' <= c <= 'z') && c != 'I' && c != 'O' && c != 'l'
  }

  predicate Hex(c: char) {
    '0' <= c <= '9' || 'a' <= c <= 'f' || 'A' <= c <= 'F'
  }

  /** The kinds that compare as single values; null is Python's None. */
  predicate SingleKind(kind: Json) {
    kind != Str("object") && kind != Str("typedArray") && kind != Str("number") && kind != Null
  }

  /** The sized integers and the times. */
  predicate WholeKind(kind: Json) {
    SingleKind(kind) && kind != Str("string") && kind != Str("boolean") && kind != Str("identifier") && kind != Str("bytes")
  }

  /** The literal has the form of a value of the kind. */
  predicate Fits(kind: Json, v: Json) {
    && SingleKind(kind)
    && (kind == Str("string") ==> v.Str?)
    && (kind == Str("boolean") ==> v.Bool?)
    && (kind == Str("identifier") ==> v.Str? && forall i | 0 <= i < |v.s| :: Base58(v.s[i]))
    && (kind == Str("bytes") ==> v.Str? && |v.s| % 2 == 0 && forall i | 0 <= i < |v.s| :: Hex(v.s[i]))
    && (WholeKind(kind) ==> v.Int?)
  }

  predicate HasEnum(s: Schema) {
    Lookup(s, "enum").Arr?
  }

  predicate Listed(s: Schema, v: Json) {
    HasEnum(s) ==> exists i | 0 <= i < |Lookup(s, "enum").items| :: JsonEqual(v, Lookup(s, "enum").items[i])
  }

  predicate InBounds(s: Schema, v: Json) {
    IsNumber(v) ==>
      && (Limit(s, "minimum").Some? ==> Limit(s, "minimum").value <= NumberOf(v))
      && (Limit(s, "maximum").Some? ==> NumberOf(v) <= Limit(s, "maximum").value)
  }

  /** The literal is some value of the property: of its kind, in its enum, inside its bounds. */
  predicate IsValueOf(kind: Json, s: Schema, v: Json) {
    Fits(kind, v) && Listed(s, v) && InBounds(s, v)
  }

  /** What the code asks: the enum is read for strings only. */
  predicate LiteralRight(kind: Json, s: Schema, v: Json) {
    Fits(kind, v) && InBounds(s, v) && (kind == Str("string") ==> Listed(s, v))
  }

  // ----- The code's branches -----

  method LiteralProblem(kind: Json, s: Schema, v: Json) returns (bad: bool)
    ensures bad <==> !LiteralRight(kind, s, v)
  {
    if kind == Str("object") || kind == Str("typedArray") || kind == Str("number") || kind == Null {
      return true;
    }
    if kind == Str("string") {
      if !v.Str? {
        return true;
      }
      bad := NotListed(s, v);
    } else if kind == Str("boolean") {
      bad := !v.Bool?;
    } else if kind == Str("identifier") {
      var ok := v.Str?;
      if ok {
        for i := 0 to |v.s|
          invariant ok <==> forall j | 0 <= j < i :: Base58(v.s[j])
        {
          ok := ok && Base58(v.s[i]);
        }
      }
      bad := !ok;
    } else if kind == Str("bytes") {
      var ok := v.Str? && |v.s| % 2 == 0;
      if ok {
        for i := 0 to |v.s|
          invariant ok <==> forall j | 0 <= j < i :: Hex(v.s[j])
        {
          ok := ok && Hex(v.s[i]);
        }
      }
      bad := !ok;
    } else {
      if !v.Int? {
        return true;
      }
      var low, high := Limit(s, "minimum"), Limit(s, "maximum");
      bad := (low.Some? && (v.n as real) < low.value) || (high.Some? && (v.n as real) > high.value);
    }
  }

  /** `'enum' in schema and v not in schema['enum']`, for a string */
  method NotListed(s: Schema, v: Json) returns (bad: bool)
    requires v.Str?
    ensures bad <==> !Listed(s, v)
  {
    if !HasEnum(s) {
      return false;
    }
    var items := Lookup(s, "enum").items;
    bad := true;
    for i := 0 to |items|
      invariant bad <==> !exists j | 0 <= j < i :: JsonEqual(v, items[j])
    {
      if v == items[i] {
        bad := false;
      }
    }
  }

  // ----- How far a passed literal is a value -----

  /** No value of the property is refused. */
  lemma ValuesPass(kind: Json, s: Schema, v: Json)
    requires IsValueOf(kind, s, v)
    ensures LiteralRight(kind, s, v)
  {
  }

  /** Reading the enum would add nothing: there is none, or it lists both booleans, or it lists every
      integer between two bounds that are both there. */
  predicate EnumAddsNothing(kind: Json, s: Schema) {
    || !HasEnum(s)
    || (kind == Str("boolean") && Listed(s, Bool(true)) && Listed(s, Bool(false)))
    || (WholeKind(kind) && ListsItsRange(s))
  }

  predicate ListsItsRange(s: Schema) {
    var low, high := Limit(s, "minimum"), Limit(s, "maximum");
    low.Some? && high.Some? && forall n | Ceiling(low.value) <= n <= high.value.Floor :: Listed(s, Int(n))
  }

  function Ceiling(r: real): (n: int)
    ensures r <= n as real < r + 1.0
  {
    if r.Floor as real == r then r.Floor else r.Floor + 1
  }

  function Ones(n: nat): (r: string)
    ensures |r| == n && forall i | 0 <= i < n :: r[i] == '1'
  {
    if n == 0 then "" else Ones(n - 1) + "1"
  }

  /** A length no string of the list has, nor any longer one. */
  function Longer(items: seq<Json>): (n: nat)
    ensures forall i | 0 <= i < |items| && items[i].Str? :: |items[i].s| < n
  {
    if items == [] then 0
    else
      var n := Longer(items[..|items| - 1]);
      var last := items[|items| - 1];
      if last.Str? && n <= |last.s| then |last.s| + 1 else n
  }

  /** A finite enum never lists every identifier, nor every byte string. */
  lemma SomeUnlisted(s: Schema) returns (v: Json)
    requires HasEnum(s)
    ensures !Listed(s, v) && v.Str? && |v.s| % 2 == 0 && (forall i | 0 <= i < |v.s| :: v.s[i] == '1')
  {
    var items := Lookup(s, "enum").items;
    v := Str(Ones(2 * Longer(items)));
    forall i | 0 <= i < |items| ensures !JsonEqual(v, items[i]) {
      if items[i].Str? {
        assert |items[i].s| < Longer(items);
      }
    }
  }

  /** An integer above (below) a given one and above (below) every number of the list. */
  function Above(items: seq<Json>, from: int): (n: int)
    ensures from <= n && forall i | 0 <= i < |items| && IsNumber(items[i]) :: NumberOf(items[i]) < n as real
  {
    if items == [] then from
    else
      var n := Above(items[..|items| - 1], from);
      var last := items[|items| - 1];
      if IsNumber(last) && n as real <= NumberOf(last) then NumberOf(last).Floor + 1 else n
  }

  function Below(items: seq<Json>, from: int): (n: int)
    ensures n <= from && forall i | 0 <= i < |items| && IsNumber(items[i]) :: n as real < NumberOf(items[i])
  {
    if items == [] then from
    else
      var n := Below(items[..|items| - 1], from);
      var last := items[|items| - 1];
      if IsNumber(last) && NumberOf(last) <= n as real then NumberOf(last).Floor - 1 else n
  }

  /** A condition's literal that passes is a value of the property, whatever the literal, exactly when
      the property is a string (or no single value, which passes nothing) or its enum adds nothing. */
  lemma PassedLiteralsAreValuesIff(kind: Json, s: Schema)
    ensures (forall v :: LiteralRight(kind, s, v) ==> IsValueOf(kind, s, v)) <==>
      !SingleKind(kind) || kind == Str("string") || EnumAddsNothing(kind, s)
  {
    if SingleKind(kind) && kind != Str("string") && HasEnum(s) {
      if kind == Str("boolean") {
        BooleanCase(s);
      } else if WholeKind(kind) {
        WholeCase(kind, s);
      } else {
        var v := SomeUnlisted(s);
        assert LiteralRight(kind, s, v) && !IsValueOf(kind, s, v);
      }
    }
  }

  lemma BooleanCase(s: Schema)
    ensures (forall v :: LiteralRight(Str("boolean"), s, v) ==> IsValueOf(Str("boolean"), s, v)) <==> Listed(s, Bool(true)) && Listed(s, Bool(false))
  {
    var kind := Str("boolean");
    assert LiteralRight(kind, s, Bool(true)) && LiteralRight(kind, s, Bool(false));
    if Listed(s, Bool(true)) && Listed(s, Bool(false)) {
      forall v | LiteralRight(kind, s, v) ensures IsValueOf(kind, s, v) {
        assert v == Bool(true) || v == Bool(false);
      }
    }
  }

  /** With a bound missing, some integer inside the other is not listed: an enum is finite. */
  lemma SomeInBoundsUnlisted(s: Schema) returns (n: int)
    requires HasEnum(s) && (Limit(s, "minimum").None? || Limit(s, "maximum").None?)
    ensures InBounds(s, Int(n)) && !Listed(s, Int(n))
  {
    var items := Lookup(s, "enum").items;
    var low, high := Limit(s, "minimum"), Limit(s, "maximum");
    n := if high.None? then Above(items, if low.Some? then Ceiling(low.value) else 0) else Below(items, high.value.Floor);
    forall i | 0 <= i < |items| ensures !JsonEqual(Int(n), items[i]) {
      if IsNumber(items[i]) {
        assert NumberOf(items[i]) != n as real;
      }
    }
  }

  lemma BoundsAreRange(s: Schema, n: int)
    requires Limit(s, "minimum").Some? && Limit(s, "maximum").Some?
    ensures InBounds(s, Int(n)) <==> Ceiling(Limit(s, "minimum").value) <= n <= Limit(s, "maximum").value.Floor
  {
  }

  lemma ListsItsRangeIff(s: Schema)
    requires HasEnum(s)
    ensures (forall n: int :: InBounds(s, Int(n)) ==> Listed(s, Int(n))) <==> ListsItsRange(s)
  {
    if Limit(s, "minimum").None? || Limit(s, "maximum").None? {
      var n := SomeInBoundsUnlisted(s);
    } else {
      forall n: int ensures InBounds(s, Int(n)) <==> Ceiling(Limit(s, "minimum").value) <= n <= Limit(s, "maximum").value.Floor {
        BoundsAreRange(s, n);
      }
    }
  }

  lemma WholeCase(kind: Json, s: Schema)
    requires WholeKind(kind) && HasEnum(s)
    ensures (forall v :: LiteralRight(kind, s, v) ==> IsValueOf(kind, s, v)) <==> ListsItsRange(s)
  {
    forall n: int ensures LiteralRight(kind, s, Int(n)) <==> InBounds(s, Int(n)) {}
    forall n: int ensures IsValueOf(kind, s, Int(n)) <==> InBounds(s, Int(n)) && Listed(s, Int(n)) {}
    ListsItsRangeIff(s);
    if ListsItsRange(s) {
      forall v | LiteralRight(kind, s, v) ensures IsValueOf(kind, s, v) {
        assert v == Int(v.n);
      }
    }
  }

  /** The schema of an issue's `tk`: a byte whose one value is 0. */
  const IssueTk: Schema := map["type" := Str("integer"), "minimum" := Int(0), "maximum" := Int(255), "enum" := Arr([Int(0)])]

  /** A condition `tk = 7` passes, and no issue has it. */
  lemma IntegerEnumIsIgnored()
    ensures KindOf(IssueTk) == Str("u8") && LiteralRight(Str("u8"), IssueTk, Int(7)) && !IsValueOf(Str("u8"), IssueTk, Int(7))
  {
    assert Lookup(IssueTk, "enum") == Arr([Int(0)]);
    assert forall i | 0 <= i < 1 :: [Int(0)][i] == Int(0);
  }
}
