/** Who is a member of a repository at a moment: the maintainer and writer rows of the log. */
module Membership {
  import opened Rules
  import opened Chain
  import opened ForgeContracts

  /** A live row of type `t` enrolling `who` in `repo`. */
  predicate Row(d: Doc, t: DocType, repo: Option<Value>, who: Option<Value>) {
    d.live && d.typ == t && Get(d.view, repoId) == repo && Get(d.view, memberId) == who
  }

  predicate Maintains(docs: seq<Doc>, repo: Option<Value>, who: Option<Value>) {
    exists i | 0 <= i < |docs| :: Row(docs[i], Maintainer, repo, who)
  }

  predicate HasRole(docs: seq<Doc>, repo: Option<Value>, who: Option<Value>, n: int) {
    exists i | 0 <= i < |docs| :: Row(docs[i], Writer, repo, who) && Get(docs[i].view, role) == Some(Int(n))
  }

  lemma MemberFound(docs: seq<Doc>, t: DocType, conds: seq<(Field, Cond)>, who: Option<Value>, me: View) returns (i: nat)
    requires Finds(docs, Member(t, conds), who, me)
    ensures i < |docs| && Row(docs[i], t, Get(me, repoId), who)
    ensures forall k | 0 <= k < |conds| :: CondHolds(conds[k].1, Get(docs[i].view, conds[k].0), me)
  {
    var leaf := Member(t, conds);
    i :| 0 <= i < |docs| && Serves(docs[i], leaf, who, me);
    assert leaf.findBy[0] == (repoId, From(repoId));
    assert leaf.findBy[1] == (memberId, Own);
  }

  lemma MaintainerFound(docs: seq<Doc>, who: Option<Value>, me: View)
    requires Finds(docs, Member(Maintainer, []), who, me)
    ensures Maintains(docs, Get(me, repoId), who)
  {
    var i := MemberFound(docs, Maintainer, [], who, me);
  }

  /** A writer leaf whose condition compares `role` with the claim in `f` proves that claim. */
  lemma ClaimFound(docs: seq<Doc>, f: Field, who: Option<Value>, me: View)
    requires Finds(docs, Member(Writer, [(role, Agrees(f))]), who, me)
    requires forall i | 0 <= i < |docs| && docs[i].typ == Writer :: RoleOf(docs[i].view)
    ensures f in me && me[f].Int? && HasRole(docs, Get(me, repoId), who, me[f].n)
  {
    var conds := [(role, Agrees(f))];
    var i := MemberFound(docs, Writer, conds, who, me);
    assert conds[0] == (role, Agrees(f));
  }

  predicate RoleOf(v: View) {
    role in v && v[role].Int? && 1 <= v[role].n <= 4
  }

  lemma WriterRolesUnder(C: Contract, s: State)
    requires C(Writer) == WriterSchema && Sound(C, s)
    ensures forall i | 0 <= i < |s.docs| && s.docs[i].typ == Writer :: RoleOf(s.docs[i].view)
  {
    forall i | 0 <= i < |s.docs| && s.docs[i].typ == Writer ensures RoleOf(s.docs[i].view) {
      SoundStands(C, s, i, WriterSchema);
      WriterRole(s.docs[i].view);
    }
  }

  lemma WriterRoles(s: State)
    requires Sound(Forge, s)
    ensures forall i | 0 <= i < |s.docs| && s.docs[i].typ == Writer :: RoleOf(s.docs[i].view)
  {
    WriterRolesUnder(Forge, s);
  }

  lemma WriterRole(v: View)
    requires Standing(WriterSchema, v)
    ensures RoleOf(v)
  {
    assert role in WriterSchema.required;
    assert KindOf(role) == IntKind;
    assert WriterSchema.bounds[1] == Between(role, 1, 4);
  }

  lemma CreateOwner(C: Contract, s: State, signer: nat, t: DocType, data: View)
    requires AcceptsCreate(C, s, signer, t, data) && C(t).ownerRef != []
    ensures Refers(s.docs, C(t).ownerRef, Some(Ident(signer)), CreatedView(s, signer, data))
  {
  }
}
