/** What a clean check gives: registration in order, and references that name one document. */
module Registration {
  import opened JsonValues
  import opened References

  lemma {:induction false} TargetInPrefix(cs: seq<Contract>, n: nat, i: nat, ids: map<string, string>, t: DocType, d: Declaration, leaf: Leaf)
    requires i < n <= |cs|
    ensures LeafRight(cs[..n], i, ids, t, d, leaf) <==> LeafRight(cs, i, ids, t, d, leaf)
  {
    assert forall j | 0 <= j <= i :: cs[..n][j] == cs[j];
    assert forall j: nat | j <= i :: TargetAt(cs[..n], i, ids, leaf, j) <==> TargetAt(cs, i, ids, leaf, j);
  }

  lemma TypeInPrefix(cs: seq<Contract>, n: nat, i: nat, ids: map<string, string>, t: DocType)
    requires i < n <= |cs|
    ensures TypeRight(cs[..n], i, ids, t) <==> TypeRight(cs, i, ids, t)
  {
    forall d | d in t.declarations ensures DeclarationRight(cs[..n], i, ids, t, d) <==> DeclarationRight(cs, i, ids, t, d) {
      forall leaf | leaf in Leaves(d.tree) ensures LeafRight(cs[..n], i, ids, t, d, leaf) <==> LeafRight(cs, i, ids, t, d, leaf) {
        TargetInPrefix(cs, n, i, ids, t, d, leaf);
      }
    }
  }

  lemma ContractInPrefix(cs: seq<Contract>, n: nat, i: nat, ids: map<string, string>)
    requires i < n <= |cs|
    ensures ContractRight(cs[..n], i, ids) <==> ContractRight(cs, i, ids)
  {
    assert cs[..n][i] == cs[i];
    forall name | name in cs[i].types ensures TypeRight(cs[..n], i, ids, cs[i].types[name]) <==> TypeRight(cs, i, ids, cs[i].types[name]) {
      TypeInPrefix(cs, n, i, ids, cs[i].types[name]);
    }
  }

  /** A set registers exactly when each contract is right at its turn, with only those before it in
      state; so every prefix of the order checks clean too. */
  lemma PrefixesRegister(cs: seq<Contract>, ids: map<string, string>)
    ensures SetRight(cs, ids) <==> forall n: nat | n <= |cs| :: SetRight(cs[..n], ids)
  {
    if SetRight(cs, ids) {
      forall n: nat | n <= |cs| ensures SetRight(cs[..n], ids) {
        forall i | 0 <= i < n ensures ContractRight(cs[..n], i, ids) {
          ContractInPrefix(cs, n, i, ids);
        }
      }
    }
    assert cs[..|cs|] == cs;
  }

  /** Adding a contract at the end asks nothing new of those before it. */
  lemma AppendingChecksTheLast(cs: seq<Contract>, c: Contract, ids: map<string, string>)
    ensures SetRight(cs + [c], ids) <==> SetRight(cs, ids) && ContractRight(cs + [c], |cs|, ids)
  {
    var all, n := cs + [c], |cs|;
    assert all[..n] == cs;
    forall i | 0 <= i < n ensures ContractRight(cs, i, ids) <==> ContractRight(all, i, ids) {
      ContractInPrefix(all, n, i, ids);
    }
  }

  // ----- `findBy` names one document, and keeps naming it -----

  /** A stored document, its system properties among its fields. */
  datatype Stored = Stored(id: int, fields: map<string, Json>)

  predicate Agree(a: Stored, b: Stored, names: set<string>) {
    forall p | p in names :: (p in a.fields <==> p in b.fields) && (p in a.fields ==> a.fields[p] == b.fields[p])
  }

  /** No two documents of the type share the values of a unique index. */
  predicate IndicesHold(t: DocType, docs: set<Stored>) {
    forall i, a, b | 0 <= i < |t.indices| && a in docs && b in docs ::
      t.indices[i].unique && Agree(a, b, set p | p in t.indices[i].props) ==> a.id == b.id
  }

  predicate Matches(doc: Stored, wanted: map<string, Json>) {
    forall k | k in wanted :: k in doc.fields && doc.fields[k] == wanted[k]
  }

  /** A replace: the id stays, a type that is not mutable keeps everything, a mutable one keeps the
      fixed system properties and what it lists as immutable outright. */
  predicate Replaces(t: DocType, before: Stored, after: Stored) {
    && before.id == after.id
    && (!t.mutable ==> after == before)
    && Agree(before, after, SystemFixed + (set e | e in t.immutable && e.Always? :: e.name))
  }

  /** A `findBy` the check lets through matches at most one document, and no replace of that document
      makes it match less. */
  lemma FindByNamesOneDocument(c: Contract, t: DocType, d: Declaration, tc: Contract, tt: DocType, keys: map<string, string>,
                               docs: set<Stored>, wanted: map<string, Json>)
    requires FindByRight(c, t, d, tc, tt, keys) && wanted.Keys == keys.Keys && IndicesHold(tt, docs)
    ensures forall a, b | a in docs && b in docs && Matches(a, wanted) && Matches(b, wanted) :: a.id == b.id
    ensures forall a, b | a in docs && Matches(a, wanted) && Replaces(tt, a, b) :: Matches(b, wanted)
  {
    var i :| 0 <= i < |tt.indices| && UniqueOver(tt.indices[i], keys.Keys);
    forall a, b | a in docs && b in docs && Matches(a, wanted) && Matches(b, wanted) ensures a.id == b.id {
      assert Agree(a, b, set p | p in tt.indices[i].props);
    }
    forall a, b | a in docs && Matches(a, wanted) && Replaces(tt, a, b) ensures Matches(b, wanted) {
      assert forall k | k in wanted :: KeyRight(c, t, d, tc, tt, k, keys[k]);
      FixedKeysStay(tt, wanted, a, b);
    }
  }

  /** Some replace a type allows makes a document with these keys stop matching. */
  ghost predicate Slips(t: DocType, keys: set<string>) {
    exists wanted: map<string, Json>, a, b :: wanted.Keys == keys && Matches(a, wanted) && Replaces(t, a, b) && !Matches(b, wanted)
  }

  /** The demand on the keys is neither more nor less than is needed: a document keeps matching through
      every replace exactly when each key is fixed once written, so a key frozen only under a
      condition is rightly refused. */
  lemma KeysFixedIff(t: DocType, keys: set<string>)
    ensures !Slips(t, keys) <==> forall k | k in keys :: FixedOnceWritten(t, k)
  {
    if k :| k in keys && !FixedOnceWritten(t, k) {
      var wanted := map j | j in keys :: Null;
      var a, b := Stored(0, wanted), Stored(0, wanted[k := Bool(true)]);
      assert Replaces(t, a, b) by {
        assert k !in SystemFixed + (set e | e in t.immutable && e.Always? :: e.name);
      }
      assert wanted.Keys == keys && Matches(a, wanted) && !Matches(b, wanted);
    }
    if forall k | k in keys :: FixedOnceWritten(t, k) {
      forall wanted: map<string, Json>, a, b | wanted.Keys == keys && Matches(a, wanted) && Replaces(t, a, b) ensures Matches(b, wanted) {
        FixedKeysStay(t, wanted, a, b);
      }
    }
  }

  lemma FixedKeysStay(t: DocType, wanted: map<string, Json>, a: Stored, b: Stored)
    requires (forall k | k in wanted :: FixedOnceWritten(t, k)) && Matches(a, wanted) && Replaces(t, a, b)
    ensures Matches(b, wanted)
  {
    forall k | k in wanted ensures k in b.fields && b.fields[k] == wanted[k] {
      assert Always(k) in t.immutable ==> Always(k).name in set e | e in t.immutable && e.Always? :: e.name;
      assert t.mutable ==> k in SystemFixed + (set e | e in t.immutable && e.Always? :: e.name);
    }
  }
}
