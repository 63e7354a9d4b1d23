/** `shorthand` through chains of references of any length: `resolve` lays a property over the definition
    it names, that over the one the definition names, and so on. Which chains keep their kind. */
module ShorthandChains {
  import opened JsonValues
  import opened JsonPointers
  import opened PropertyKinds
  import opened Shorthand

  /** The property, the definition it refers to, the one that refers to, down to the last. */
  function Layers(defs: Defs, s: Schema, unused: set<string>): (r: Option<seq<Schema>>)
    requires unused <= defs.Keys
    ensures r.Some? ==> |r.value| > 0
    decreases unused
  {
    if "$ref" !in s then Some([s])
    else if !s["$ref"].Str? then None
    else
      var name := BaseName(s["$ref"].s);
      if name !in unused || !defs[name].Obj? then None
      else
        var rest := Layers(defs, defs[name].members, unused - {name});
        if rest.None? then None else Some([s] + rest.value)
  }

  function MergeAll(layers: seq<Schema>): (r: Schema)
    requires |layers| > 0
  {
    if |layers| == 1 then layers[0] else Merge(MergeAll(layers[1..]), layers[0])
  }

  // ----- `resolve` is the merge of the layers -----

  lemma MergeAssociative(a: Schema, b: Schema, c: Schema)
    ensures Merge(a, Merge(b, c)) == Merge(Merge(a, b), c)
  {
  }

  lemma {:induction false} FoldIsMerge(defs: Defs, s: Schema, over: Schema, unused: set<string>)
    requires unused <= defs.Keys
    ensures FoldedIn(defs, Merge(s, over), unused) ==
      match Layers(defs, s, unused) case None => None case Some(layers) => Some(Merge(MergeAll(layers), over))
    decreases unused
  {
    var m := Merge(s, over);
    assert "$ref" in m <==> "$ref" in s;
    if "$ref" in s && s["$ref"].Str? {
      var name := BaseName(s["$ref"].s);
      assert m["$ref"] == s["$ref"];
      if name in unused && defs[name].Obj? {
        var d := defs[name].members;
        FoldIsMerge(defs, d, m, unused - {name});
        var rest := Layers(defs, d, unused - {name});
        if rest.Some? {
          assert ([s] + rest.value)[1..] == rest.value;
          MergeAssociative(MergeAll(rest.value), s, over);
        }
      }
    }
  }

  lemma {:induction false} FoldedIsMerge(defs: Defs, s: Schema)
    ensures Folded(defs, s) == match Layers(defs, s, defs.Keys) case None => None case Some(layers) => Some(MergeAll(layers))
  {
    FoldIsMerge(defs, s, map[], defs.Keys);
    NothingOver(s);
    var layers := Layers(defs, s, defs.Keys);
    if layers.Some? {
      NothingOver(MergeAll(layers.value));
    }
  }

  lemma NothingOver(s: Schema)
    ensures Merge(s, map[]) == s
  {
  }

  // ----- The rewrite of the layers -----

  /** The layers with the values inside them rewritten. */
  function Done(layers: seq<Schema>): (r: seq<Schema>)
    ensures |r| == |layers|
  {
    if layers == [] then [] else [Inside(layers[0])] + Done(layers[1..])
  }

  /** Such layers after the last step on each. */
  function Shorter(layers: seq<Schema>): (r: seq<Schema>)
    ensures |r| == |layers|
  {
    if layers == [] then [] else [Shorten(layers[0])] + Shorter(layers[1..])
  }

  function DoneOption(layers: Option<seq<Schema>>): (r: Option<seq<Schema>>) {
    if layers.None? then None else Some(Shorter(Done(layers.value)))
  }

  lemma {:induction false} ShortFirst(s: Schema, rest: seq<Schema>)
    ensures Shorter(Done([s] + rest)) == [ShortSchema(s)] + Shorter(Done(rest))
  {
    assert ([s] + rest)[1..] == rest;
    assert ([Inside(s)] + Done(rest))[1..] == Done(rest);
  }

  lemma ShortOne(s: Schema)
    ensures Shorter(Done([s])) == [ShortSchema(s)]
  {
    assert Done([s]) == [Inside(s)] && [Inside(s)][1..] == [];
  }

  lemma RefShort(s: Schema)
    ensures "$ref" in ShortSchema(s) <==> "$ref" in s
    ensures "$ref" in s ==> (ShortSchema(s)["$ref"].Str? <==> s["$ref"].Str?)
  {
  }

  lemma {:induction false} LayersShort(defs: Defs, s: Schema, unused: set<string>)
    requires unused <= defs.Keys == Inside(defs).Keys
    ensures Layers(Inside(defs), ShortSchema(s), unused) == DoneOption(Layers(defs, s, unused))
    decreases unused
  {
    RefShort(s);
    if "$ref" !in s {
      ShortOne(s);
    } else if s["$ref"].Str? {
      SiteKeepsRef(s);
      var name := BaseName(s["$ref"].s);
      if name in unused {
        assert Inside(defs)[name].Obj? <==> defs[name].Obj?;
        if defs[name].Obj? {
          var d := defs[name].members;
          ShortOfObject(d);
          LayersShort(defs, d, unused - {name});
          var rest := Layers(defs, d, unused - {name});
          if rest.Some? {
            ShortFirst(s, rest.value);
          }
        }
      }
    }
  }

  // ----- What a keyword is, through the layers -----

  /** The first layer that has the keyword. */
  function Bearer(layers: seq<Schema>, k: string): (r: Option<Schema>)
    ensures r.Some? ==> k in r.value && r.value in layers
  {
    if layers == [] then None else if k in layers[0] then Some(layers[0]) else Bearer(layers[1..], k)
  }

  function First(layers: seq<Schema>, k: string): (r: Json) {
    var b := Bearer(layers, k);
    if b.Some? then b.value[k] else Null
  }

  /** The layers the rewrite leaves in the long form. */
  function Long(layers: seq<Schema>): (r: seq<Schema>) {
    if layers == [] then [] else (if Shortened(layers[0]) then [] else [layers[0]]) + Long(layers[1..])
  }

  /** When a chain keeps its kind, by its layers with the values inside them rewritten. Only an array can
      lose it. Where the layer that says so is shortened itself, the keywords of the whole chain must be
      those of bytes, and of the medium it was shortened to. Where it stays long, the keywords of the
      shortened layers, which are gone, must not be missed. */
  predicate ChainKeepsKind(layers: seq<Schema>) {
    KeepsRead(Bearer(layers, "type"), First(layers, "byteArray"), First(layers, "contentMediaType"),
              First(Long(layers), "byteArray"), First(Long(layers), "contentMediaType"))
  }

  predicate KeepsRead(typed: Option<Schema>, bytes: Json, media: Json, longBytes: Json, longMedia: Json) {
    typed.Some? && Lookup(typed.value, "type") == Str("array") ==>
      if Shortened(typed.value) then
        Truthy(bytes) && (media == Str(Identifier) <==> IsIdentifier(typed.value))
      else
        && (Truthy(bytes) <==> Truthy(longBytes))
        && (Truthy(bytes) ==> (media == Str(Identifier) <==> longMedia == Str(Identifier)))
  }

  lemma {:induction false} MergedFirst(layers: seq<Schema>, k: string)
    requires |layers| > 0 && k != "$ref"
    ensures Lookup(MergeAll(layers), k) == First(layers, k)
  {
    if |layers| > 1 {
      MergedFirst(layers[1..], k);
      MergeLooks(MergeAll(layers[1..]), layers[0], k);
    }
  }

  lemma {:induction false} MergedKind(layers: seq<Schema>)
    requires |layers| > 0
    ensures KindOf(MergeAll(layers)) ==
      KindBy(First(layers, "type"), First(layers, "byteArray"), First(layers, "contentMediaType"), IntKind(MergeAll(layers)))
  {
    MergedFirst(layers, "type");
    MergedFirst(layers, "byteArray");
    MergedFirst(layers, "contentMediaType");
  }

  // ----- Keywords after the rewrite -----

  lemma {:induction false} ShorterOther(layers: seq<Schema>, k: string)
    requires k !in ByteKeywords
    ensures First(Shorter(layers), k) == First(layers, k)
  {
    if layers != [] {
      ShortenLooks(layers[0], k);
      ShorterOther(layers[1..], k);
    }
  }

  lemma FirstOver(layer: Schema, rest: seq<Schema>, k: string)
    ensures First([layer] + rest, k) == if k in layer then layer[k] else First(rest, k)
  {
    assert ([layer] + rest)[1..] == rest;
  }

  lemma ShortenKeyword(layer: Schema, k: string)
    requires k == "byteArray" || k == "contentMediaType"
    ensures Shortened(layer) ==> k !in Shorten(layer)
    ensures !Shortened(layer) ==> Shorten(layer) == layer
  {
    ShortenedForm(layer);
  }

  lemma {:induction false} ShorterLong(layers: seq<Schema>, k: string)
    requires k == "byteArray" || k == "contentMediaType"
    ensures First(Shorter(layers), k) == First(Long(layers), k)
  {
    if layers != [] {
      var layer, rest := layers[0], layers[1..];
      ShorterLong(rest, k);
      ShortenKeyword(layer, k);
      FirstOver(Shorten(layer), Shorter(rest), k);
      FirstOver(layer, Long(rest), k);
      if Shortened(layer) {
        assert [] + Long(rest) == Long(rest);
      }
    }
  }

  lemma {:induction false} ShorterType(layers: seq<Schema>)
    ensures var typed := Bearer(layers, "type");
      First(Shorter(layers), "type") == if typed.Some? then Lookup(Shorten(typed.value), "type") else Null
  {
    if layers != [] {
      var layer, rest := layers[0], layers[1..];
      ShortenedForm(layer);
      ShorterType(rest);
      FirstOver(Shorten(layer), Shorter(rest), "type");
    }
  }

  lemma {:induction false} ShorterLimit(layers: seq<Schema>, k: string)
    requires |layers| > 0 && k !in ByteKeywords && k != "$ref"
    ensures Lookup(MergeAll(Shorter(layers)), k) == Lookup(MergeAll(layers), k)
  {
    ShorterOther(layers, k);
    MergedFirst(layers, k);
    MergedFirst(Shorter(layers), k);
  }

  lemma NumberKeywords(k: string)
    requires k == "minimum" || k == "maximum" || k == "enum"
    ensures k !in ByteKeywords && k != "$ref"
  {
  }

  lemma {:induction false} ShorterIntKind(layers: seq<Schema>)
    requires |layers| > 0
    ensures IntKind(MergeAll(Shorter(layers))) == IntKind(MergeAll(layers))
  {
    NumberKeywords("minimum");
    NumberKeywords("maximum");
    NumberKeywords("enum");
    ShorterLimit(layers, "minimum");
    ShorterLimit(layers, "maximum");
    ShorterLimit(layers, "enum");
    SameIntKind(MergeAll(Shorter(layers)), MergeAll(layers));
  }

  // ----- The kind -----

  lemma ArrayReadIff(bytes: Json, media: Json, longBytes: Json, longMedia: Json, number: string)
    ensures KindBy(Str("array"), longBytes, longMedia, number) == KindBy(Str("array"), bytes, media, number) <==>
      (Truthy(bytes) <==> Truthy(longBytes)) && (Truthy(bytes) ==> (media == Str(Identifier) <==> longMedia == Str(Identifier)))
  {
  }

  lemma ShortReadIff(identifier: bool, bytes: Json, media: Json, longBytes: Json, longMedia: Json, number: string)
    ensures KindBy(if identifier then Str("identifier") else Str("bytes"), longBytes, longMedia, number) == KindBy(Str("array"), bytes, media, number)
      <==> Truthy(bytes) && (media == Str(Identifier) <==> identifier)
  {
  }

  lemma ReadIff(typed: Option<Schema>, bytes: Json, media: Json, longBytes: Json, longMedia: Json, number: string)
    ensures var before := if typed.Some? then Lookup(typed.value, "type") else Null;
            var after := if typed.Some? then Lookup(Shorten(typed.value), "type") else Null;
      KindBy(after, longBytes, longMedia, number) == KindBy(before, bytes, media, number) <==> KeepsRead(typed, bytes, media, longBytes, longMedia)
  {
    if typed.Some? {
      ShortenedForm(typed.value);
      ArrayReadIff(bytes, media, longBytes, longMedia, number);
      ShortReadIff(IsIdentifier(typed.value), bytes, media, longBytes, longMedia, number);
    }
  }

  /** Layers whose inner values are rewritten already. */
  lemma {:induction false} DoneChainKindIff(layers: seq<Schema>)
    requires |layers| > 0
    ensures KindOf(MergeAll(Shorter(layers))) == KindOf(MergeAll(layers)) <==> ChainKeepsKind(layers)
  {
    MergedKind(layers);
    MergedKind(Shorter(layers));
    ShorterIntKind(layers);
    ShorterType(layers);
    ShorterLong(layers, "byteArray");
    ShorterLong(layers, "contentMediaType");
    ReadIff(Bearer(layers, "type"), First(layers, "byteArray"), First(layers, "contentMediaType"),
            First(Long(layers), "byteArray"), First(Long(layers), "contentMediaType"), IntKind(MergeAll(layers)));
  }

  lemma {:induction false} DoneMerge(layers: seq<Schema>)
    requires |layers| > 0
    ensures MergeAll(Done(layers)) == Inside(MergeAll(layers))
  {
    if |layers| > 1 {
      assert Done(layers)[1..] == Done(layers[1..]);
      DoneMerge(layers[1..]);
      InsideMerge(MergeAll(layers[1..]), layers[0]);
    } else {
      assert Done(layers) == [Inside(layers[0])];
    }
  }

  /** For every contract and every property, through any chain of references: the kind is the same after
      the rewrite of both exactly when the chain leads nowhere or keeps its kind. */
  lemma {:induction false} ChainKindIff(defs: Defs, s: Schema)
    ensures Kind(Inside(defs), ShortSchema(s)) == (match Kind(defs, s) case None => None case Some(k) => Some(Short(k)))
      <==> match Layers(defs, s, defs.Keys) case None => true case Some(layers) => ChainKeepsKind(Done(layers))
  {
    FoldedIsMerge(defs, s);
    FoldedIsMerge(Inside(defs), ShortSchema(s));
    assert Inside(defs).Keys == defs.Keys;
    LayersShort(defs, s, defs.Keys);
    var layers := Layers(defs, s, defs.Keys);
    if layers.Some? {
      DoneMerge(layers.value);
      InsideKind(MergeAll(layers.value));
      DoneChainKindIff(Done(layers.value));
    }
  }
}
