/** JSON values as Python's decoder delivers them, and Python's comparison of them. */
module Json {
  import opened Prelude

  datatype Json =
    | Null
    | Bool(b: bool)
    | Int(n: int)
    | Float(value: real)
    | Str(s: string)
    | Arr(items: seq<Json>)
    | Obj(members: map<string, Json>)

  function AsNumber(j: Json): Option<real> {
    match j
    case Bool(b) => Some(if b then 1.0 else 0.0)
    case Int(n) => Some(n as real)
    case Float(value) => Some(value)
    case _ => None
  }

  /** `==`: 1, 1.0 and true are equal, alone and inside lists and objects. */
  predicate Equal(a: Json, b: Json)
    decreases a
  {
    if AsNumber(a).Some? || AsNumber(b).Some? then AsNumber(a) == AsNumber(b)
    else
      match a
      case Arr(items) =>
        b.Arr? && |items| == |b.items| && forall i | 0 <= i < |items| :: Equal(items[i], b.items[i])
      case Obj(members) =>
        b.Obj? && members.Keys == b.members.Keys && forall key <- members :: Equal(members[key], b.members[key])
      case _ => a == b
  }

  lemma {:induction false} EqualIsReflexive(a: Json)
    ensures Equal(a, a)
    decreases a
  {
    match a
    case Arr(items) =>
      forall i | 0 <= i < |items| ensures Equal(items[i], items[i]) { EqualIsReflexive(items[i]); }
    case Obj(members) =>
      forall key | key in members ensures Equal(members[key], members[key]) { EqualIsReflexive(members[key]); }
    case _ =>
  }

  /** Numbers and truth values are equal as numbers, texts and null as themselves, nothing across these. */
  lemma EqualOfScalars(n: int, x: real, b: bool, s: string, a: Json)
    ensures Equal(Int(n), a) <==>
              match a
              case Int(m) => m == n
              case Float(y) => y == n as real
              case Bool(c) => n == if c then 1 else 0
              case _ => false
    ensures Equal(Float(x), a) <==> (a.Float? && a.value == x) || (!a.Float? && Equal(a, Float(x)))
    ensures Equal(Bool(b), a) <==> Equal(Int(if b then 1 else 0), a)
    ensures Equal(Str(s), a) <==> a == Str(s)
    ensures Equal(Null, a) <==> a == Null
  {
  }

  /** Lists are equal element by element and objects member by member. */
  lemma EqualLooksInside(a: Json, b: Json)
    ensures a.Arr? ==>
              (Equal(a, b) <==>
                 && b.Arr? && |a.items| == |b.items|
                 && forall i: nat | i < |a.items| && i < |b.items| :: Equal(a.items[i], b.items[i]))
    ensures a.Obj? ==>
              (Equal(a, b) <==>
                 && b.Obj?
                 && forall key :: (key in a.members <==> key in b.members) &&
                                  (key in a.members && key in b.members ==> Equal(a.members[key], b.members[key])))
  {
  }

  lemma {:induction false} EqualIsSymmetric(a: Json, b: Json)
    requires Equal(a, b)
    ensures Equal(b, a)
    decreases a
  {
    match a
    case Arr(items) =>
      forall i | 0 <= i < |items| ensures Equal(b.items[i], items[i]) { EqualIsSymmetric(items[i], b.items[i]); }
    case Obj(members) =>
      forall key | key in members ensures Equal(b.members[key], members[key]) {
        EqualIsSymmetric(members[key], b.members[key]);
      }
    case _ =>
  }

  lemma {:induction false} EqualIsTransitive(a: Json, b: Json, c: Json)
    requires Equal(a, b) && Equal(b, c)
    ensures Equal(a, c)
    decreases a
  {
    match a
    case Arr(items) =>
      forall i | 0 <= i < |items| ensures Equal(items[i], c.items[i]) {
        EqualIsTransitive(items[i], b.items[i], c.items[i]);
      }
    case Obj(members) =>
      forall key | key in members ensures Equal(members[key], c.members[key]) {
        EqualIsTransitive(members[key], b.members[key], c.members[key]);
      }
    case _ =>
  }
}
