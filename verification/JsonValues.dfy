/** JSON values as `json.load` gives them, and the two equalities `json_check.py` sits between. */
module JsonValues {
  datatype Option<T> = None | Some(value: T)

  /** A dictionary is a finite map: Python's dictionaries compare without regard to order. */
  datatype Json =
    | Null
    | Bool(b: bool)
    | Int(n: int)
    | Float(x: real)
    | Str(s: string)
    | Arr(items: seq<Json>)
    | Obj(members: map<string, Json>)

  function Get(node: Json, key: string): (r: Option<Json>) {
    if node.Obj? && key in node.members then Some(node.members[key]) else None
  }

  predicate IsNumber(v: Json) {
    v.Int? || v.Float?
  }

  function NumberOf(v: Json): (r: real)
    requires IsNumber(v)
  {
    if v.Int? then v.n as real else v.x
  }

  /** What Python compares as numbers: `True == 1` and `False == 0`. */
  predicate NumberLike(v: Json) {
    v.Bool? || IsNumber(v)
  }

  function AsNumber(v: Json): (r: real)
    requires NumberLike(v)
  {
    if v.Bool? then (if v.b then 1.0 else 0.0) else NumberOf(v)
  }

  /** Python's `==`. */
  predicate PyEqual(a: Json, b: Json)
    decreases b
  {
    if NumberLike(b) then NumberLike(a) && AsNumber(a) == AsNumber(b)
    else
      match b
      case Arr(ys) => a.Arr? && |a.items| == |ys| && (forall i | 0 <= i < |ys| :: PyEqual(a.items[i], ys[i]))
      case Obj(m) => a.Obj? && a.members.Keys == m.Keys && (forall k | k in m :: PyEqual(a.members[k], m[k]))
      case _ => a == b
  }

  predicate SameType(a: Json, b: Json) {
    match b
    case Null => a.Null?
    case Bool(_) => a.Bool?
    case Int(_) => a.Int?
    case Float(_) => a.Float?
    case Str(_) => a.Str?
    case Arr(_) => a.Arr?
    case Obj(_) => a.Obj?
  }

  /** The equality behind `const` and `enum`. */
  predicate Same(a: Json, b: Json) {
    (SameType(a, b) && PyEqual(a, b)) || (IsNumber(a) && IsNumber(b) && PyEqual(a, b))
  }

  /** The equality of the JSON data model: numbers by value, and no boolean is a number. */
  predicate JsonEqual(a: Json, b: Json)
    decreases b
  {
    if IsNumber(b) then IsNumber(a) && NumberOf(a) == NumberOf(b)
    else
      match b
      case Arr(ys) => a.Arr? && |a.items| == |ys| && (forall i | 0 <= i < |ys| :: JsonEqual(a.items[i], ys[i]))
      case Obj(m) => a.Obj? && a.members.Keys == m.Keys && (forall k | k in m :: JsonEqual(a.members[k], m[k]))
      case _ => a == b
  }

  /** No boolean, and no number a boolean compares equal to. */
  predicate Unclashing(b: Json) {
    match b
    case Bool(_) => false
    case Int(n) => n != 0 && n != 1
    case Float(x) => x != 0.0 && x != 1.0
    case Arr(ys) => forall i | 0 <= i < |ys| :: Unclashing(ys[i])
    case Obj(m) => forall k | k in m :: Unclashing(m[k])
    case _ => true
  }

  /** `same` guards the top of the literal only: below it every value must be unclashing. */
  predicate Exact(b: Json) {
    match b
    case Arr(ys) => forall i | 0 <= i < |ys| :: Unclashing(ys[i])
    case Obj(m) => forall k | k in m :: Unclashing(m[k])
    case _ => true
  }

  lemma {:induction false} UnclashingAgrees(a: Json, b: Json)
    requires Unclashing(b)
    ensures PyEqual(a, b) <==> JsonEqual(a, b)
    decreases b
  {
    match b
    case Arr(ys) =>
      if a.Arr? && |a.items| == |ys| {
        forall i | 0 <= i < |ys| ensures PyEqual(a.items[i], ys[i]) <==> JsonEqual(a.items[i], ys[i]) {
          UnclashingAgrees(a.items[i], ys[i]);
        }
      }
    case Obj(m) =>
      if a.Obj? && a.members.Keys == m.Keys {
        forall k | k in m ensures PyEqual(a.members[k], m[k]) <==> JsonEqual(a.members[k], m[k]) {
          UnclashingAgrees(a.members[k], m[k]);
        }
      }
    case _ =>
  }

  lemma {:induction false} Reflexive(b: Json)
    ensures PyEqual(b, b)
  {
    match b
    case Arr(ys) => forall i | 0 <= i < |ys| ensures PyEqual(ys[i], ys[i]) { Reflexive(ys[i]); }
    case Obj(m) => forall k | k in m ensures PyEqual(m[k], m[k]) { Reflexive(m[k]); }
    case _ =>
  }

  /** A value Python calls equal to `b` and JSON does not. */
  lemma {:induction false} Clash(b: Json) returns (a: Json)
    requires !Unclashing(b)
    ensures PyEqual(a, b) && !JsonEqual(a, b)
  {
    match b
    case Bool(t) => a := Int(if t then 1 else 0);
    case Int(n) => a := Bool(n == 1);
    case Float(x) => a := Bool(x == 1.0);
    case Arr(ys) =>
      var i :| 0 <= i < |ys| && !Unclashing(ys[i]);
      var e := Clash(ys[i]);
      a := ClashItem(ys, i, e);
    case Obj(m) =>
      var k :| k in m && !Unclashing(m[k]);
      var e := Clash(m[k]);
      a := ClashMember(m, k, e);
  }

  lemma ClashItem(ys: seq<Json>, i: nat, e: Json) returns (a: Json)
    requires i < |ys| && PyEqual(e, ys[i]) && !JsonEqual(e, ys[i])
    ensures a.Arr? && PyEqual(a, Arr(ys)) && !JsonEqual(a, Arr(ys))
  {
    a := Arr(ys[i := e]);
    forall j | 0 <= j < |ys| ensures PyEqual(a.items[j], ys[j]) {
      Reflexive(ys[j]);
    }
    assert !JsonEqual(a.items[i], ys[i]);
  }

  lemma ClashMember(m: map<string, Json>, k: string, e: Json) returns (a: Json)
    requires k in m && PyEqual(e, m[k]) && !JsonEqual(e, m[k])
    ensures a.Obj? && PyEqual(a, Obj(m)) && !JsonEqual(a, Obj(m))
  {
    a := Obj(m[k := e]);
    forall j | j in m ensures PyEqual(a.members[j], m[j]) {
      Reflexive(m[j]);
    }
    assert !JsonEqual(a.members[k], m[k]);
  }

  lemma {:induction false} ExactAgrees(a: Json, b: Json)
    requires Exact(b)
    ensures Same(a, b) <==> JsonEqual(a, b)
  {
    if b.Arr? || b.Obj? {
      UnclashingAgrees(a, b);
    }
  }

  /** `same(value, literal)` is JSON equality for every value exactly when the literal holds no
      boolean, 0 or 1 inside an array or an object. */
  lemma {:induction false} SameIsJsonEqual(b: Json)
    ensures (forall a :: Same(a, b) <==> JsonEqual(a, b)) <==> Exact(b)
  {
    if Exact(b) {
      forall a ensures Same(a, b) <==> JsonEqual(a, b) {
        ExactAgrees(a, b);
      }
    } else {
      var a;
      if b.Arr? {
        var i :| 0 <= i < |b.items| && !Unclashing(b.items[i]);
        var e := Clash(b.items[i]);
        a := ClashItem(b.items, i, e);
      } else {
        var k :| k in b.members && !Unclashing(b.members[k]);
        var e := Clash(b.members[k]);
        a := ClashMember(b.members, k, e);
      }
      assert Same(a, b) && !JsonEqual(a, b);
    }
  }

  /** The smallest such literal: `[true]` passes as `[1]`. */
  lemma NestedBooleanPassesAsNumber()
    ensures Same(Arr([Bool(true)]), Arr([Int(1)])) && !Same(Bool(true), Int(1))
    ensures !JsonEqual(Arr([Bool(true)]), Arr([Int(1)]))
  {
    var a, b := Arr([Bool(true)]), Arr([Int(1)]);
    assert PyEqual(a.items[0], b.items[0]);
    assert !JsonEqual(a.items[0], b.items[0]);
  }
}
