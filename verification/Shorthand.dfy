/** `shorthand`: identifiers and fixed-length byte arrays in their one-keyword form. */
module Shorthand {
  import opened JsonValues
  import opened JsonPointers
  import opened PropertyKinds

  const LongForm: set<string> := {"byteArray", "minItems", "maxItems", "contentMediaType"}

  /** A byte array whose bounds agree, with no `uniqueItems`. */
  predicate FixedBytes(out: Schema) {
    && Lookup(out, "type") == Str("array") && Lookup(out, "byteArray") == Bool(true) && "minItems" in out
    && PyEqual(Lookup(out, "minItems"), Lookup(out, "maxItems")) && "uniqueItems" !in out
  }

  predicate IsIdentifier(out: Schema) {
    Lookup(out, "contentMediaType") == Str(Identifier) && PyEqual(Lookup(out, "minItems"), Int(32))
  }

  /** The last step, on a dictionary whose values are done. */
  function Shorten(out: Schema): (r: Schema) {
    if !FixedBytes(out) then out
    else if IsIdentifier(out) then map["type" := Str("identifier")] + Others(out)
    else if Lookup(out, "contentMediaType") == Null then map["type" := Str("bytes"), "size" := out["minItems"]] + Others(out)
    else out
  }

  function Others(out: Schema): (r: Schema) {
    out - (LongForm + {"type"})
  }

  function Inside(m: Schema): (r: Schema) {
    map k | k in m :: Short(m[k])
  }

  function Short(node: Json): (r: Json) {
    match node
    case Arr(xs) => Arr(seq(|xs|, i requires 0 <= i < |xs| => Short(xs[i])))
    case Obj(m) => Obj(Shorten(map k | k in m :: Short(m[k])))
    case _ => node
  }

  // ----- Idempotence -----

  lemma ShortenTwice(out: Schema)
    ensures Shorten(Shorten(out)) == Shorten(out)
  {
    var s := Shorten(out);
    if FixedBytes(out) && s != out {
      assert s["type"] == Str("identifier") || s["type"] == Str("bytes");
    }
  }

  lemma ShortenKeepsDone(out: Schema)
    requires forall k | k in out :: Short(out[k]) == out[k]
    ensures forall k | k in Shorten(out) :: Short(Shorten(out)[k]) == Shorten(out)[k]
  {
  }

  /** A second pass changes nothing, on any JSON. */
  lemma {:induction false} ShortTwice(node: Json)
    ensures Short(Short(node)) == Short(node)
  {
    match node
    case Arr(xs) =>
      forall i | 0 <= i < |xs| ensures Short(Short(xs[i])) == Short(xs[i]) {
        ShortTwice(xs[i]);
      }
    case Obj(m) =>
      forall k | k in m ensures Short(Short(m[k])) == Short(m[k]) {
        ShortTwice(m[k]);
      }
      var out := map k | k in m :: Short(m[k]);
      ShortenKeepsDone(out);
      ShortenTwice(out);
      var s := Shorten(out);
      assert (map k | k in s :: Short(s[k])) == s;
    case _ =>
  }

  // ----- Through `$ref` -----

  /** A property schema after the rewrite: `Short(Obj(m)) == Obj(ShortSchema(m))`. */
  function ShortSchema(m: Schema): (r: Schema) {
    Shorten(Inside(m))
  }

  lemma ShortOfObject(m: Schema)
    ensures Short(Obj(m)) == Obj(ShortSchema(m))
  {
    assert Inside(m) == map k | k in m :: Short(m[k]);
  }

  const ByteKeywords: set<string> := LongForm + {"type", "uniqueItems", "size"}

  /** A `$ref` site that says nothing about byte arrays itself. */
  predicate CleanSite(m: Schema) {
    "$ref" in m ==> m.Keys !! ByteKeywords
  }

  predicate CleanDefs(defs: Defs) {
    forall d | d in defs && defs[d].Obj? :: CleanSite(defs[d].members)
  }

  lemma SiteOnlyInside(m: Schema)
    requires m.Keys !! ByteKeywords
    ensures ShortSchema(m) == Inside(m)
  {
    assert "type" !in m;
  }

  lemma InsideMerge(definition: Schema, site: Schema)
    ensures Inside(Merge(definition, site)) == Merge(Inside(definition), Inside(site))
  {
  }

  lemma SameTest(definition: Schema, site: Schema)
    requires site.Keys !! ByteKeywords
    ensures forall k | k in ByteKeywords :: Lookup(Merge(definition, site), k) == Lookup(definition, k)
    ensures forall k | k in ByteKeywords :: k in Merge(definition, site) <==> k in definition
  {
  }

  lemma MergeShorten(definition: Schema, site: Schema)
    requires site.Keys !! ByteKeywords
    ensures Shorten(Merge(definition, site)) == Merge(Shorten(definition), site)
  {
    var m := Merge(definition, site);
    SameTest(definition, site);
    assert FixedBytes(m) <==> FixedBytes(definition);
    assert IsIdentifier(m) <==> IsIdentifier(definition);
    OthersMerge(definition, site);
  }

  lemma OthersMerge(definition: Schema, site: Schema)
    requires site.Keys !! ByteKeywords
    ensures Others(Merge(definition, site)) == Merge(Others(definition), site)
    ensures forall head: Schema | head.Keys <= ByteKeywords :: head + Merge(Others(definition), site) == Merge(head + Others(definition), site)
  {
  }

  lemma MergeCommutes(definition: Schema, site: Schema)
    requires site.Keys !! ByteKeywords
    ensures ShortSchema(Merge(definition, site)) == Merge(ShortSchema(definition), ShortSchema(site))
  {
    SiteOnlyInside(site);
    InsideMerge(definition, site);
    MergeShorten(Inside(definition), Inside(site));
  }

  function ShortOption(s: Option<Schema>): (r: Option<Schema>) {
    if s.None? then None else Some(ShortSchema(s.value))
  }

  lemma {:induction false} FoldingCommutes(defs: Defs, m: Schema, unused: set<string>)
    requires CleanDefs(defs) && CleanSite(m) && unused <= defs.Keys
    ensures FoldedIn(Inside(defs), ShortSchema(m), unused) == ShortOption(FoldedIn(defs, m, unused))
    decreases unused
  {
    if "$ref" in m {
      SiteOnlyInside(m);
      if m["$ref"].Str? {
        var name := BaseName(m["$ref"].s);
        if name in unused && defs[name].Obj? {
          ShortOfObject(defs[name].members);
          MergeCommutes(defs[name].members, m);
          assert CleanSite(Merge(defs[name].members, m));
          FoldingCommutes(defs, Merge(defs[name].members, m), unused - {name});
        }
      }
    } else {
      assert "$ref" !in ShortSchema(m);
    }
  }

  // ----- Kind and accepted lengths -----

  lemma {:induction false} EnumIntsShort(xs: seq<Json>)
    ensures EnumInts(Short(Arr(xs)).items) == EnumInts(xs)
  {
    if xs != [] {
      EnumIntsShort(xs[1..]);
      assert Short(Arr(xs)).items[1..] == Short(Arr(xs[1..])).items;
    }
  }

  lemma InsideIntKind(m: Schema)
    ensures IntKind(Inside(m)) == IntKind(m)
  {
    var listed := Lookup(m, "enum");
    if listed.Arr? {
      EnumIntsShort(listed.items);
    }
    assert forall k | k in m :: NumberLike(m[k]) || NumberLike(Short(m[k])) ==> Short(m[k]) == m[k];
  }

  lemma {:induction false} ShortReads(v: Json)
    ensures v.Str? || Short(v).Str? ==> Short(v) == v
    ensures Truthy(Short(v)) <==> Truthy(v)
  {
  }

  lemma {:induction false} KindByShort(t: Json, bytes: Json, media: Json, number: string)
    ensures KindBy(Short(t), Short(bytes), Short(media), number) == Short(KindBy(t, bytes, media, number))
  {
    ShortReads(t);
    ShortReads(bytes);
    ShortReads(media);
  }

  lemma InsideKind(m: Schema)
    ensures KindOf(Inside(m)) == Short(KindOf(m))
  {
    InsideIntKind(m);
    KindByShort(Lookup(m, "type"), Lookup(m, "byteArray"), Lookup(m, "contentMediaType"), IntKind(m));
    assert forall k :: Lookup(Inside(m), k) == Short(Lookup(m, k));
  }

  lemma ShortenKind(out: Schema)
    ensures KindOf(Shorten(out)) == KindOf(out)
  {
  }

  /** The kind of every property is what it was, through every `$ref` whose site says nothing about
      byte arrays. (A `type` that is no string is rewritten like any other value.) */
  lemma ShorthandKeepsKind(defs: Defs, m: Schema)
    requires CleanDefs(defs) && CleanSite(m)
    ensures Kind(Inside(defs), ShortSchema(m)) ==
      match Kind(defs, m) case None => None case Some(k) => Some(Short(k))
  {
    FoldingCommutes(defs, m, defs.Keys);
    assert Inside(defs).Keys == defs.Keys;
    var s := Folded(defs, m);
    if s.Some? {
      ShortenKind(Inside(s.value));
      InsideKind(s.value);
    }
  }

  /** The byte lengths a resolved schema accepts. */
  predicate AcceptsLength(s: Schema, n: nat) {
    var t := Lookup(s, "type");
    if t == Str("identifier") then n == 32
    else if t == Str("bytes") then AtLeast(Limit(s, "size"), n) && AtMost(Limit(s, "size"), n)
    else t == Str("array") && Truthy(Lookup(s, "byteArray")) && AtLeast(Limit(s, "minItems"), n) && AtMost(Limit(s, "maxItems"), n)
  }

  predicate AtLeast(limit: Option<real>, n: nat) {
    limit.Some? ==> limit.value <= n as real
  }

  predicate AtMost(limit: Option<real>, n: nat) {
    limit.Some? ==> n as real <= limit.value
  }

  predicate AcceptsThrough(defs: Defs, m: Schema, n: nat) {
    var s := Folded(defs, m);
    s.Some? && AcceptsLength(s.value, n)
  }

  lemma InsideLengths(m: Schema, n: nat)
    ensures AcceptsLength(Inside(m), n) <==> AcceptsLength(m, n)
  {
    assert forall k | k in m && (m[k].Str? || Short(m[k]).Str?) :: Short(m[k]) == m[k];
    assert forall k | k in m :: NumberLike(m[k]) || NumberLike(Short(m[k])) ==> Short(m[k]) == m[k];
    assert Truthy(Lookup(Inside(m), "byteArray")) <==> Truthy(Lookup(m, "byteArray"));
  }

  lemma ShortenLengths(out: Schema, n: nat)
    requires !FixedBytes(out) || "size" !in out
    ensures AcceptsLength(Shorten(out), n) <==> AcceptsLength(out, n)
  {
    if FixedBytes(out) && Shorten(out) != out {
      var low, high := Limit(out, "minItems"), Limit(out, "maxItems");
      assert low == high;
      if !IsIdentifier(out) {
        assert Limit(Shorten(out), "size") == low;
      }
    }
  }

  /** The accepted byte lengths are what they were, through every such `$ref`, for a schema whose
      long form carries no `size` of its own. */
  lemma ShorthandKeepsLengths(defs: Defs, m: Schema, n: nat)
    requires CleanDefs(defs) && CleanSite(m)
    requires var s := Folded(defs, m); s.Some? ==> !FixedBytes(Inside(s.value)) || "size" !in s.value
    ensures AcceptsThrough(Inside(defs), ShortSchema(m), n) <==> AcceptsThrough(defs, m, n)
  {
    FoldingCommutes(defs, m, defs.Keys);
    assert Inside(defs).Keys == defs.Keys;
    var s := Folded(defs, m);
    if s.Some? {
      ShortenLengths(Inside(s.value), n);
      InsideLengths(s.value, n);
    }
  }

  /** A `size` already written wins over the length the rewrite reads off: the lengths survive
      exactly when the two are equal. */
  lemma StraySizeIff(out: Schema, length: nat, size: int)
    requires FixedBytes(out) && Lookup(out, "contentMediaType") == Null
    requires out["minItems"] == Int(length) && "size" in out && out["size"] == Int(size)
    ensures (forall n: nat :: AcceptsLength(Shorten(out), n) <==> AcceptsLength(out, n)) <==> size == length
  {
    assert Limit(out, "minItems") == Some(length as real) && Limit(out, "maxItems") == Some(length as real);
    assert Limit(Shorten(out), "size") == Some(size as real);
    assert AcceptsLength(out, length);
    assert AcceptsLength(Shorten(out), length) <==> size == length;
  }

  // ----- Exactly which sites keep the kind -----

  /** The rewrite shortens this dictionary, to an identifier or to bytes. */
  predicate Shortened(out: Schema) {
    FixedBytes(out) && (IsIdentifier(out) || Lookup(out, "contentMediaType") == Null)
  }

  /** When a `$ref` site over a definition keeps its kind, by the site's own `type`, `byteArray` and
      `contentMediaType`:
      - a site without `type`, over a shortened definition, must not switch `byteArray` off and must
        not change which of the two media it is;
      - a site that is shortened itself must not take its media type from the definition;
      - any other array site over a shortened definition must say `byteArray` itself, and if that is
        true it must not take the identifier media type from the definition. */
  predicate KeepsKind(d: Schema, s: Schema) {
    if "type" !in s then
      Shortened(d) ==>
        && ("byteArray" in s ==> Truthy(s["byteArray"]))
        && ("contentMediaType" in s ==> (s["contentMediaType"] == Str(Identifier) <==> IsIdentifier(d)))
    else if Shortened(s) then
      IsIdentifier(s) || "contentMediaType" in s || Lookup(d, "contentMediaType") != Str(Identifier)
    else
      s["type"] == Str("array") && Shortened(d) ==>
        "byteArray" in s && (!Truthy(s["byteArray"]) || "contentMediaType" in s || !IsIdentifier(d))
  }

  lemma ShortenLooks(out: Schema, k: string)
    requires k !in ByteKeywords
    ensures (k in Shorten(out) <==> k in out) && Lookup(Shorten(out), k) == Lookup(out, k)
  {
  }

  lemma ShortenedForm(out: Schema)
    ensures !Shortened(out) ==> Shorten(out) == out
    ensures Shortened(out) ==>
      && Lookup(Shorten(out), "type") == (if IsIdentifier(out) then Str("identifier") else Str("bytes"))
      && "type" in Shorten(out) && "byteArray" !in Shorten(out) && "contentMediaType" !in Shorten(out)
  {
  }

  lemma MergeLooks(d: Schema, s: Schema, k: string)
    requires k != "$ref"
    ensures Lookup(Merge(d, s), k) == if k in s then s[k] else Lookup(d, k)
  {
  }

  lemma SameIntKind(a: Schema, b: Schema)
    requires Lookup(a, "minimum") == Lookup(b, "minimum") && Lookup(a, "maximum") == Lookup(b, "maximum") && Lookup(a, "enum") == Lookup(b, "enum")
    ensures IntKind(a) == IntKind(b)
  {
  }

  lemma MergeIntKind(d: Schema, s: Schema)
    ensures IntKind(Merge(Shorten(d), Shorten(s))) == IntKind(Merge(d, s))
  {
    var a, b := Merge(Shorten(d), Shorten(s)), Merge(d, s);
    SameLimit(d, s, "minimum");
    SameLimit(d, s, "maximum");
    SameLimit(d, s, "enum");
    SameIntKind(a, b);
  }

  lemma SameLimit(d: Schema, s: Schema, k: string)
    requires k !in ByteKeywords && k != "$ref"
    ensures Lookup(Merge(Shorten(d), Shorten(s)), k) == Lookup(Merge(d, s), k)
  {
    ShortenLooks(d, k);
    ShortenLooks(s, k);
    MergeLooks(Shorten(d), Shorten(s), k);
    MergeLooks(d, s, k);
  }

  /** The kind of a merged dictionary, by the three keywords it reads. */
  function KindBy(t: Json, bytes: Json, media: Json, number: string): (r: Json) {
    if t == Str("identifier") || t == Str("bytes") then t
    else if t == Str("array") && Truthy(bytes) then (if media == Str(Identifier) then Str("identifier") else Str("bytes"))
    else if t == Str("array") then Str("typedArray")
    else if t == Str("integer") then Str(number)
    else t
  }

  /** The kind read off three keywords, each the site's own or else the definition's. */
  function KindOver(d: Schema, s: Schema, number: string): (r: Json) {
    KindBy(if "type" in s then s["type"] else Lookup(d, "type"),
           if "byteArray" in s then s["byteArray"] else Lookup(d, "byteArray"),
           if "contentMediaType" in s then s["contentMediaType"] else Lookup(d, "contentMediaType"), number)
  }

  lemma KindOfMerge(d: Schema, s: Schema)
    ensures KindOf(Merge(d, s)) == KindOver(d, s, IntKind(Merge(d, s)))
  {
    MergeLooks(d, s, "type");
    MergeLooks(d, s, "byteArray");
    MergeLooks(d, s, "contentMediaType");
  }

  lemma UntypedSite(d: Schema, s: Schema, number: string)
    requires "type" !in s
    ensures KindOver(Shorten(d), Shorten(s), number) == KindOver(d, s, number) <==> KeepsKind(d, s)
  {
    ShortenedForm(d);
    ShortenedForm(s);
  }

  lemma ShortenedSite(d: Schema, s: Schema, number: string)
    requires "type" in s && Shortened(s)
    ensures KindOver(Shorten(d), Shorten(s), number) == KindOver(d, s, number) <==> KeepsKind(d, s)
  {
    ShortenedForm(d);
    ShortenedForm(s);
  }

  lemma LongSite(d: Schema, s: Schema, number: string)
    requires "type" in s && !Shortened(s)
    ensures KindOver(Shorten(d), Shorten(s), number) == KindOver(d, s, number) <==> KeepsKind(d, s)
  {
    ShortenedForm(d);
    ShortenedForm(s);
  }

  lemma DoneKindIff(d: Schema, s: Schema)
    ensures KindOf(Merge(Shorten(d), Shorten(s))) == KindOf(Merge(d, s)) <==> KeepsKind(d, s)
  {
    KindOfMerge(d, s);
    KindOfMerge(Shorten(d), Shorten(s));
    MergeIntKind(d, s);
    var number := IntKind(Merge(d, s));
    if "type" !in s {
      UntypedSite(d, s, number);
    } else if Shortened(s) {
      ShortenedSite(d, s, number);
    } else {
      LongSite(d, s, number);
    }
  }

  /** A site over a definition is read, after the rewrite, as what it was exactly when it keeps the kind. */
  lemma MergedKindIff(definition: Schema, site: Schema)
    ensures KindOf(Merge(ShortSchema(definition), ShortSchema(site))) == Short(KindOf(Merge(definition, site)))
      <==> KeepsKind(Inside(definition), Inside(site))
  {
    InsideMerge(definition, site);
    InsideKind(Merge(definition, site));
    DoneKindIff(Inside(definition), Inside(site));
  }

  lemma FoldOnce(defs: Defs, name: string, definition: Schema, site: Schema)
    requires name in defs && defs[name] == Obj(definition) && "$ref" !in definition
    requires "$ref" in site && site["$ref"].Str? && BaseName(site["$ref"].s) == name
    ensures Folded(defs, site) == Some(Merge(definition, site))
  {
    var m := Merge(definition, site);
    assert "$ref" !in m;
    assert FoldedIn(defs, m, defs.Keys - {name}) == Some(m);
  }

  lemma SiteKeepsRef(site: Schema)
    requires "$ref" in site && site["$ref"].Str?
    ensures "$ref" in ShortSchema(site) && ShortSchema(site)["$ref"] == site["$ref"]
  {
  }

  /** For every contract: a property that is a `$ref` to a plain definition keeps its kind through the
      rewrite of both exactly when the site keeps the kind. */
  lemma SiteKindIff(defs: Defs, name: string, definition: Schema, site: Schema)
    requires name in defs && defs[name] == Obj(definition) && "$ref" !in definition
    requires "$ref" in site && site["$ref"].Str? && BaseName(site["$ref"].s) == name
    ensures Kind(defs, site) == Some(KindOf(Merge(definition, site)))
    ensures Kind(Inside(defs), ShortSchema(site)) == Some(Short(KindOf(Merge(definition, site))))
      <==> KeepsKind(Inside(definition), Inside(site))
  {
    FoldOnce(defs, name, definition, site);
    ShortOfObject(definition);
    SiteKeepsRef(site);
    assert "$ref" !in ShortSchema(definition);
    FoldOnce(Inside(defs), name, ShortSchema(definition), ShortSchema(site));
    MergedKindIff(definition, site);
  }

  /** A site that makes a fixed byte array an identifier loses that, whatever the array's length: its
      definition is shortened to `bytes` on its own. */
  lemma DirtySiteChangesKind(defs: Defs, name: string, definition: Schema, site: Schema)
    requires name in defs && defs[name] == Obj(definition) && "$ref" !in definition && Inside(definition) == definition
    requires FixedBytes(definition) && Lookup(definition, "contentMediaType") == Null
    requires "$ref" in site && site["$ref"].Str? && BaseName(site["$ref"].s) == name
    requires site.Keys == {"$ref", "contentMediaType"} && site["contentMediaType"] == Str(Identifier)
    ensures Kind(defs, site) == Some(Str("identifier"))
    ensures Kind(Inside(defs), ShortSchema(site)) == Some(Str("bytes"))
  {
    FoldOnce(defs, name, definition, site);
    MediaWins(definition, site);
    ShortOfObject(definition);
    SiteUnchanged(site);
    FoldOnce(Inside(defs), name, Shorten(definition), site);
  }

  lemma SiteUnchanged(site: Schema)
    requires "type" !in site && forall k | k in site :: site[k].Str?
    ensures ShortSchema(site) == site
  {
    assert Inside(site) == site;
  }

  lemma MediaWins(definition: Schema, site: Schema)
    requires FixedBytes(definition) && Lookup(definition, "contentMediaType") == Null
    requires site.Keys == {"$ref", "contentMediaType"} && site["contentMediaType"] == Str(Identifier)
    ensures KindOf(Merge(definition, site)) == Str("identifier") && KindOf(Merge(Shorten(definition), site)) == Str("bytes")
  {
  }
}
