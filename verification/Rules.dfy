/** The rule language a contract is written in, and what a rule means.

    A document is a finite map from property names to values; a property that is not in the map is
    absent. A rule is judged in an `Env`: the log of documents as it stands with the written
    document in it (so totals count that document), the written document's view, and, on a
    replace, the view it writes over (`$old`). */
module Rules {

  datatype Option<+T> = None | Some(value: T)

  /** The document types of the four-contract set that carry the rules modelled here. */
  datatype DocType =
    | Repo | Maintainer | Writer | Consent | PushGrant
    | RefUpdate | ProtectedRefUpdate | Config | Release | PackManifest | Chunk
    | Issue | Patch | Comment | Review | Transition
    | Runner | CheckRun

  /** Property names. The system properties `$id`, `$ownerId`, `$createdAt`, `$updatedAt` and
      `$revision` come first; a nested `imported.author` is a property of its own. */
  datatype Field =
    | docId | ownerId | createdAt | updatedAt | revision
    | repoId | memberId | vis | consentBy | role | rClaim
    | repoName | visibility | defaultBranch | forkOf
    | botId | scope | prefix | until | pg | pp | grantor
    | refName | refNameHash | newOid | prevOid | enc | epoch
    | protectedPatterns | movedTo
    | tagName | releaseName | notes | assets | assetManifest | delta | targetOid
    | packHash | seqNo | kind | sizeBytes | chunkCount | storage | tips | supersedes
    | number | tk | title | body | imported | importedAuthor | importedUrl | upstreamNumber
    | asMember | mRole | aud | baseRefName | baseRefNameHash | sourceRefName | sourceRefNameHash | sourceRepoId
    | patchId | verdict | commitOid
    | targetId | targetNumber | targetKind | asAuthor | oid
    | replyTo | noParent | path | diffHunk | line | startLine | side | reviewId
    | headOid | checkName | status | conclusion | startedAt | completedAt | outcome
    | summary | detailsUrl | logUrl | logSha256 | artifacts | externalId

  datatype Value =
    | Int(n: int)
    | Text(s: string)
    | Ident(id: nat)
    | Bytes(bytes: seq<nat>)
    | List(items: seq<string>)

  type View = map<Field, Value>

  datatype Doc = Doc(typ: DocType, view: View, live: bool)

  datatype Kind = IntKind | TextKind | IdentKind | BytesKind | ListKind

  /** The value kind each property's schema gives it. */
  function KindOf(f: Field): Kind {
    match f
    case createdAt | updatedAt | revision | role | rClaim | until | epoch | delta | seqNo | kind | sizeBytes
       | chunkCount | storage | number | tk | upstreamNumber | mRole | aud | verdict | targetNumber | targetKind
       | asAuthor | line | startLine | side | startedAt | completedAt | outcome => IntKind
    case docId | ownerId | repoId | memberId | consentBy | forkOf | botId | pg | pp | grantor | movedTo | packHash
       | asMember | sourceRepoId | patchId | targetId | replyTo | noParent | reviewId => IdentKind
    case scope | refNameHash | newOid | prevOid | enc | assetManifest | targetOid | tips | supersedes
       | baseRefNameHash | sourceRefNameHash | commitOid | oid | headOid | logSha256 => BytesKind
    case protectedPatterns | imported => ListKind
    case _ => TextKind
  }

  function KindOfValue(v: Value): Kind {
    match v
    case Int(_) => IntKind
    case Text(_) => TextKind
    case Ident(_) => IdentKind
    case Bytes(_) => BytesKind
    case List(_) => ListKind
  }

  predicate WellKinded(v: View) {
    forall f | f in v :: KindOfValue(v[f]) == KindOf(f)
  }

  /** An absent integer reads 0 in a rule; every other absent property reads as nothing. */
  predicate IsInteger(f: Field) {
    KindOf(f) == IntKind
  }

  function Get(v: View, f: Field): Option<Value> {
    if f in v then Some(v[f]) else None
  }

  function Read(v: View, f: Field): Option<Value> {
    if f in v then Some(v[f]) else if IsInteger(f) then Some(Int(0)) else None
  }

  function AsInt(v: Option<Value>): int {
    if v.Some? && v.value.Int? then v.value.n else 0
  }

  function IntOf(v: View, f: Field): int {
    if f in v && v[f].Int? then v[f].n else 0
  }

  function Length(v: View, f: Field): nat {
    if f !in v then 0
    else match v[f]
      case Text(s) => |s|
      case Bytes(b) => |b|
      case List(l) => |l|
      case _ => 0
  }

  function FirstByte(v: View, f: Field): nat {
    if f in v && v[f].Bytes? && |v[f].bytes| > 0 then v[f].bytes[0] else 0
  }

  /** Which documents a total ranges over: the counted type's property, and the written
      document's property it must equal. */
  type Keys = seq<(Field, Field)>

  datatype Term =
    | Prop(f: Field)
    | OldProp(f: Field)
    | Lit(v: Value)
    | Count(f: Field)
    | Byte0(f: Field)
    | CountOf(typ: DocType, keys: Keys)
    | SumOf(typ: DocType, summed: Field, keys: Keys)
    | Referenced(ref: Field, f: Field)
    | Add(l: Term, r: Term)
    | Subtract(l: Term, r: Term)
    | Multiply(l: Term, r: Term)
    | Divide(l: Term, d: int)
    | Modulo(l: Term, d: int)
    | Min(l: Term, r: Term)
    | Max(l: Term, r: Term)

  datatype Rule =
    | True
    | Present(f: Field)
    | Absent(f: Field)
    | AllAbsent(fs: seq<Field>)
    | OldPresent(f: Field)
    | OldAbsent(f: Field)
    | Equal(l: Term, r: Term)
    | NotEqual(l: Term, r: Term)
    | LessThan(l: Term, r: Term)
    | AtMost(l: Term, r: Term)
    | In(t: Term, values: seq<Value>)
    | NotIn(t: Term, values: seq<Value>)
    | StartsWith(t: Term, p: Term)
    | EndsWith(t: Term, p: Term)
    | Not(a: Rule)
    | And(a: Rule, b: Rule)
    | Or(a: Rule, b: Rule)
    | IfThen(a: Rule, b: Rule)
    | IfThenElse(a: Rule, b: Rule, c: Rule)

  datatype Env = Env(docs: seq<Doc>, me: View, prev: Option<View>)

  /** Whether a document of the log is counted for the written view `me`. */
  predicate Matches(d: Doc, me: View, keys: Keys) {
    forall k | 0 <= k < |keys| :: Get(d.view, keys[k].0) == Get(me, keys[k].1)
  }

  predicate Counted(d: Doc, t: DocType, me: View, keys: Keys) {
    d.live && d.typ == t && Matches(d, me, keys)
  }

  function CountDocs(docs: seq<Doc>, t: DocType, me: View, keys: Keys): nat {
    if docs == [] then 0
    else CountDocs(docs[..|docs| - 1], t, me, keys) + if Counted(docs[|docs| - 1], t, me, keys) then 1 else 0
  }

  function Share(d: Doc, t: DocType, f: Field, me: View, keys: Keys): int {
    if Counted(d, t, me, keys) then IntOf(d.view, f) else 0
  }

  function SumDocs(docs: seq<Doc>, t: DocType, f: Field, me: View, keys: Keys): int {
    if docs == [] then 0 else SumDocs(docs[..|docs| - 1], t, f, me, keys) + Share(docs[|docs| - 1], t, f, me, keys)
  }

  /** The document an identifier names: document ids are positions in the log. */
  function Lookup(docs: seq<Doc>, v: Option<Value>): Option<Doc> {
    if v.Some? && v.value.Ident? && v.value.id < |docs| && docs[v.value.id].live then Some(docs[v.value.id]) else None
  }

  /** Division and remainder are Euclidean, as the node's are; both divisors a rule writes are positive. */
  function Quotient(n: int, d: int): int {
    if d > 0 then n / d else 0
  }

  function Remainder(n: int, d: int): int {
    if d > 0 then n % d else 0
  }

  function Eval(t: Term, env: Env): Option<Value>
    decreases t
  {
    match t
    case Prop(f) => Read(env.me, f)
    case OldProp(f) => if env.prev.Some? then Read(env.prev.value, f) else None
    case Lit(v) => Some(v)
    case Count(f) => Some(Int(Length(env.me, f)))
    case Byte0(f) => Some(Int(FirstByte(env.me, f)))
    case CountOf(typ, keys) => Some(Int(CountDocs(env.docs, typ, env.me, keys)))
    case SumOf(typ, f, keys) => Some(Int(SumDocs(env.docs, typ, f, env.me, keys)))
    case Referenced(ref, f) =>
      var d := Lookup(env.docs, Get(env.me, ref));
      if d.Some? then Read(d.value.view, f) else None
    case Add(a, b) => Some(Int(AsInt(Eval(a, env)) + AsInt(Eval(b, env))))
    case Subtract(a, b) => Some(Int(AsInt(Eval(a, env)) - AsInt(Eval(b, env))))
    case Multiply(a, b) => Some(Int(AsInt(Eval(a, env)) * AsInt(Eval(b, env))))
    case Divide(a, d) => Some(Int(Quotient(AsInt(Eval(a, env)), d)))
    case Modulo(a, d) => Some(Int(Remainder(AsInt(Eval(a, env)), d)))
    case Min(a, b) =>
      var x, y := AsInt(Eval(a, env)), AsInt(Eval(b, env));
      Some(Int(if x <= y then x else y))
    case Max(a, b) =>
      var x, y := AsInt(Eval(a, env)), AsInt(Eval(b, env));
      Some(Int(if x <= y then y else x))
  }

  predicate TextPair(a: Option<Value>, b: Option<Value>) {
    a.Some? && a.value.Text? && b.Some? && b.value.Text?
  }

  predicate Suffix(p: string, s: string) {
    |p| <= |s| && s[|s| - |p|..] == p
  }

  /** A comparison with something that is not there is false. */
  predicate Holds(rule: Rule, env: Env)
    decreases rule
  {
    match rule
    case True => true
    case Present(f) => f in env.me
    case Absent(f) => f !in env.me
    case AllAbsent(fs) => forall f | f in fs :: f !in env.me
    case OldPresent(f) => env.prev.Some? && f in env.prev.value
    case OldAbsent(f) => env.prev.Some? && f !in env.prev.value
    case Equal(a, b) =>
      var x, y := Eval(a, env), Eval(b, env);
      x.Some? && y.Some? && x == y
    case NotEqual(a, b) =>
      var x, y := Eval(a, env), Eval(b, env);
      x.Some? && y.Some? && x != y
    case LessThan(a, b) =>
      var x, y := Eval(a, env), Eval(b, env);
      x.Some? && y.Some? && AsInt(x) < AsInt(y)
    case AtMost(a, b) =>
      var x, y := Eval(a, env), Eval(b, env);
      x.Some? && y.Some? && AsInt(x) <= AsInt(y)
    case In(a, vs) =>
      var x := Eval(a, env);
      x.Some? && x.value in vs
    case NotIn(a, vs) =>
      var x := Eval(a, env);
      x.Some? && x.value !in vs
    case StartsWith(a, p) =>
      var x, y := Eval(a, env), Eval(p, env);
      TextPair(x, y) && y.value.s <= x.value.s
    case EndsWith(a, p) =>
      var x, y := Eval(a, env), Eval(p, env);
      TextPair(x, y) && Suffix(y.value.s, x.value.s)
    case Not(a) => !Holds(a, env)
    case And(a, b) => Holds(a, env) && Holds(b, env)
    case Or(a, b) => Holds(a, env) || Holds(b, env)
    case IfThen(a, b) => Holds(a, env) ==> Holds(b, env)
    case IfThenElse(a, b, c) => if Holds(a, env) then Holds(b, env) else Holds(c, env)
  }
}
