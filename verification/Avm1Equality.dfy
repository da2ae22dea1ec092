/** The abstract equality comparison of ActionScript 1 and 2. */
module Avm1Equality {
  import opened Numbers

  /** What equality looks at in an object: the path of a display object, the node of an XML node, the
      code of a native function, and which object it is. */
  datatype Object =
    | DisplayObject(id: nat, path: string)
    | XmlNode(id: nat, node: nat)
    | NativeFunction(id: nat, code: nat)
    | Plain(id: nat)

  datatype NumberEncoding = AsInt | AsUInt | AsIntegerPtr | AsNumberPtr | AsDouble
  datatype StringEncoding = AsStringId | AsStringPtr

  datatype Atom =
    | Invalid
    | Undefined
    | Null
    | Bool(flag: bool)
    | Str(stringEncoding: StringEncoding, s: string)
    | Num(numberEncoding: NumberEncoding, d: Double)
    | Obj(o: Object)

  /** The SWF version, and the calls into scripts and the string library, as pure functions. */
  datatype Runtime = Runtime(swfVersion: nat, valueOf: Object -> Atom, stringToNumber: string -> Double)

  predicate IsPrimitive(a: Atom) { !a.Invalid? && !a.Obj? }
  predicate IsNullish(a: Atom) { a.Null? || a.Undefined? || a.Invalid? }

  predicate IsSameType(a: Atom, b: Atom) {
    match a
    case Bool(f) => b == Bool(f)
    case Invalid => b.Invalid?
    case Null => b.Null?
    case Undefined => b.Undefined?
    case Str(_, _) => b.Str?
    case Num(_, _) => b.Num?
    case Obj(_) => b.Obj?
  }

  /** With a number hint: display objects have no valueOf() called, and an object stays itself when the
      result is not primitive. An invalid atom must not get here in the original. */
  function ToPrimitive(rt: Runtime, a: Atom): (r: Atom)
    ensures !a.Obj? ==> r == a
    ensures r.Obj? ==> r == a
  {
    if !a.Obj? || a.o.DisplayObject? then a
    else if IsPrimitive(rt.valueOf(a.o)) then rt.valueOf(a.o) else a
  }

  /** The hint excludes calls: objects are not numbers. */
  function ToNumber(rt: Runtime, a: Atom): Double {
    match a
    case Invalid => NaN
    case Undefined => if rt.swfVersion > 6 && rt.swfVersion != 255 then NaN else Finite(0.0)
    case Null => if rt.swfVersion > 6 && rt.swfVersion != 255 then NaN else Finite(0.0)
    case Bool(flag) => Finite(if flag then 1.0 else 0.0)
    case Str(_, s) => rt.stringToNumber(s)
    case Num(_, d) => d
    case Obj(_) => NaN
  }

  /** The comparison of doubles: NaN differs from everything. */
  predicate SameNumber(x: Double, y: Double) { x == y && x != NaN }

  predicate SameObject(a: Object, b: Object) {
    if a.DisplayObject? && b.DisplayObject? then a.path == b.path
    else if a.XmlNode? && b.XmlNode? then a == b || a.node == b.node
    else if a.NativeFunction? && b.NativeFunction? then a.code == b.code
    else a == b
  }

  predicate IsEqualStrict(rt: Runtime, a: Atom, b: Atom) {
    IsSameType(a, b) &&
    match a
    case Str(_, s) => s == b.s
    case Obj(o) => SameObject(o, b.o)
    case Num(_, _) =>
      var x, y := ToNumber(rt, a), ToNumber(rt, b);
      SameNumber(x, y) || (x == NaN && y == NaN)
    case _ => true
  }

  function Weight(a: Atom): nat { if a.Obj? then 2 else if a.Bool? then 1 else 0 }

  predicate IsEqual(rt: Runtime, v1: Atom, v2: Atom)
    decreases Weight(v1) + Weight(v2)
  {
    var a := if rt.swfVersion < 6 then ToPrimitive(rt, v2) else v2;
    var b := if rt.swfVersion < 6 then ToPrimitive(rt, v1) else v1;
    if IsSameType(a, b) then IsEqualStrict(rt, a, b)
    else if IsNullish(a) && IsNullish(b) then true
    else if a.Bool? || b.Bool? then
      var flag := (if a.Bool? then a else b).flag;
      var val := if a.Bool? then b else a;
      IsEqual(rt, Num(AsDouble, Finite(if flag then 1.0 else 0.0)), val)
    else if (a.Num? || a.Str?) && (b.Num? || b.Str?) then
      SameNumber(ToNumber(rt, if a.Num? then a else b), ToNumber(rt, if a.Str? then a else b))
    else if a.Obj? || b.Obj? then
      var objVal := ToPrimitive(rt, if a.Obj? then a else b);
      var val := if a.Obj? then b else a;
      IsPrimitive(objVal) && IsEqual(rt, val, objVal)
    else false
  }

  /** The comparison of primitive values in one formula, without recursion: nothing but null and
      undefined equals these; two strings are compared as strings; everything else as numbers, where NaN
      equals NaN unless it comes from a string. */
  predicate PrimitivesAgree(rt: Runtime, a: Atom, b: Atom) {
    if IsNullish(a) || IsNullish(b) then IsNullish(a) && IsNullish(b)
    else if a.Str? && b.Str? then a.s == b.s
    else ToNumber(rt, a) == ToNumber(rt, b) && (ToNumber(rt, a) == NaN ==> !a.Str? && !b.Str?)
  }

  lemma {:induction false} PrimitiveEquality(rt: Runtime, a: Atom, b: Atom)
    requires !a.Obj? && !b.Obj?
    ensures IsEqual(rt, a, b) <==> PrimitivesAgree(rt, a, b)
    decreases Weight(a) + Weight(b)
  {
    if a.Bool? || b.Bool? {
      if a != b {
        var flag := if b.Bool? then b.flag else a.flag;
        PrimitiveEquality(rt, Num(AsDouble, Finite(if flag then 1.0 else 0.0)), if b.Bool? then a else b);
      }
    }
  }

  /** The comparison with an object: as one of the above after valueOf(), and as the same object with an
      object, unless valueOf() comes first. */
  predicate Agree(rt: Runtime, v1: Atom, v2: Atom) {
    if v1.Obj? && v2.Obj? && rt.swfVersion >= 6 then SameObject(v1.o, v2.o)
    else
      var a, b := ToPrimitive(rt, v1), ToPrimitive(rt, v2);
      if a.Obj? && b.Obj? then SameObject(a.o, b.o)
      else !a.Obj? && !b.Obj? && PrimitivesAgree(rt, a, b)
  }

  /** The algorithm decides the relation above, for every pair of atoms and every version. */
  lemma {:induction false} EqualityIsAgreement(rt: Runtime, v1: Atom, v2: Atom)
    ensures IsEqual(rt, v1, v2) <==> Agree(rt, v1, v2)
    decreases Weight(v1) + Weight(v2)
  {
    var a := if rt.swfVersion < 6 then ToPrimitive(rt, v2) else v2;
    var b := if rt.swfVersion < 6 then ToPrimitive(rt, v1) else v1;
    if !a.Obj? && !b.Obj? {
      PrimitiveEquality(rt, b, a);
      assert IsEqual(rt, v1, v2) == IsEqual(rt, b, a);
    } else if !(a.Obj? && b.Obj?) {
      var o, val := if a.Obj? then a else b, if a.Obj? then b else a;
      var p := ToPrimitive(rt, o);
      if val.Bool? {
        var n := Num(AsDouble, Finite(if val.flag then 1.0 else 0.0));
        EqualityIsAgreement(rt, n, o);
      } else if !p.Obj? {
        PrimitiveEquality(rt, val, p);
      }
    }
  }

  /** Two objects, where valueOf() does not come first or gives no primitive: display objects are equal if their
      paths are, XML nodes if they stand for one node, native functions if they have the same code, and any
      others, or two of different sorts, only if they are the same object. */
  lemma {:induction false} ObjectsEqualIff(rt: Runtime, a: Object, b: Object)
    requires rt.swfVersion >= 6 || (ToPrimitive(rt, Obj(a)) == Obj(a) && ToPrimitive(rt, Obj(b)) == Obj(b))
    ensures IsEqual(rt, Obj(a), Obj(b)) <==>
      match (a, b)
      case (DisplayObject(_, p), DisplayObject(_, q)) => p == q
      case (XmlNode(_, n), XmlNode(_, m)) => n == m
      case (NativeFunction(_, f), NativeFunction(_, g)) => f == g
      case (Plain(i), Plain(j)) => i == j
      case _ => false
  {
    EqualityIsAgreement(rt, Obj(a), Obj(b));
  }

  // ----- what equals a number, a string, null -----

  /** A value other than an object equals the number `d`. */
  predicate Denotes(rt: Runtime, a: Atom, d: Double) {
    match a
    case Num(_, e) => e == d
    case Str(_, s) => rt.stringToNumber(s) == d && d != NaN
    case Bool(flag) => d == Finite(if flag then 1.0 else 0.0)
    case _ => false
  }

  /** A value other than an object equals the string `t`. */
  predicate Spells(rt: Runtime, a: Atom, t: string) {
    match a
    case Str(_, s) => s == t
    case _ => rt.stringToNumber(t) != NaN && Denotes(rt, a, rt.stringToNumber(t))
  }

  /** What an object is compared as with other values: what its valueOf() gives, unless that is no primitive
      or it is a display object; these equal none. */
  predicate ComparedAs(rt: Runtime, a: Atom, v: Atom) {
    if a.Obj? then !a.o.DisplayObject? && v == rt.valueOf(a.o) && !v.Obj? && !v.Invalid? else v == a
  }

  lemma {:induction false} EqualsNumberIff(rt: Runtime, a: Atom, e: NumberEncoding, d: Double)
    ensures IsEqual(rt, a, Num(e, d)) <==> exists v :: ComparedAs(rt, a, v) && Denotes(rt, v, d)
  {
    EqualityIsAgreement(rt, a, Num(e, d));
    assert ComparedAs(rt, a, if a.Obj? then rt.valueOf(a.o) else a) || forall v :: !ComparedAs(rt, a, v);
  }

  lemma {:induction false} EqualsStringIff(rt: Runtime, a: Atom, e: StringEncoding, t: string)
    ensures IsEqual(rt, a, Str(e, t)) <==> exists v :: ComparedAs(rt, a, v) && Spells(rt, v, t)
  {
    EqualityIsAgreement(rt, a, Str(e, t));
    assert ComparedAs(rt, a, if a.Obj? then rt.valueOf(a.o) else a) || forall v :: !ComparedAs(rt, a, v);
  }

  lemma {:induction false} EqualsNullIff(rt: Runtime, a: Atom)
    ensures IsEqual(rt, a, Null) <==> exists v :: ComparedAs(rt, a, v) && (v.Null? || v.Undefined? || v.Invalid?)
    ensures IsEqual(rt, a, Undefined) <==> IsEqual(rt, a, Null)
  {
    EqualityIsAgreement(rt, a, Null);
    EqualityIsAgreement(rt, a, Undefined);
    assert ComparedAs(rt, a, if a.Obj? then rt.valueOf(a.o) else a) || forall v :: !ComparedAs(rt, a, v);
  }

  /** true and false are compared as one and zero. */
  lemma {:induction false} BoolIsNumber(rt: Runtime, a: Atom, flag: bool)
    ensures IsEqual(rt, a, Bool(flag)) <==> IsEqual(rt, a, Num(AsDouble, Finite(if flag then 1.0 else 0.0)))
  {
    EqualityIsAgreement(rt, a, Bool(flag));
    EqualityIsAgreement(rt, a, Num(AsDouble, Finite(if flag then 1.0 else 0.0)));
  }

  lemma AgreementIsSymmetric(rt: Runtime, a: Atom, b: Atom)
    ensures Agree(rt, a, b) <==> Agree(rt, b, a)
  {
  }

  lemma {:induction false} EqualityIsSymmetric(rt: Runtime, a: Atom, b: Atom)
    ensures IsEqual(rt, a, b) <==> IsEqual(rt, b, a)
  {
    EqualityIsAgreement(rt, a, b);
    EqualityIsAgreement(rt, b, a);
    AgreementIsSymmetric(rt, a, b);
  }

  /** The same value in another encoding. */
  predicate SameValue(a: Atom, b: Atom) {
    a == b || (a.Str? && b.Str? && a.s == b.s) || (a.Num? && b.Num? && a.d == b.d)
  }

  /** Every atom equals itself, NaN included, and equals the same value in any encoding; and encodings
      never matter to a comparison. */
  lemma {:induction false} EqualityIsReflexive(rt: Runtime, a: Atom, b: Atom)
    requires SameValue(a, b)
    ensures IsEqual(rt, a, b)
  {
    EqualityIsAgreement(rt, a, b);
  }

  lemma {:induction false} EncodingsDoNotMatter(rt: Runtime, a: Atom, b: Atom, c: Atom)
    requires SameValue(a, b)
    ensures IsEqual(rt, a, c) <==> IsEqual(rt, b, c)
  {
    EqualityIsAgreement(rt, a, c);
    EqualityIsAgreement(rt, b, c);
  }

  /** It is not transitive: a number lies between any two strings that denote it. */
  lemma {:induction false} EqualityIsNotTransitive(rt: Runtime, s: string, t: string)
    requires s != t && rt.stringToNumber(s) == rt.stringToNumber(t) && rt.stringToNumber(s).Finite?
    ensures var n := Num(AsDouble, rt.stringToNumber(s));
      && IsEqual(rt, Str(AsStringPtr, s), n) && IsEqual(rt, n, Str(AsStringPtr, t))
      && !IsEqual(rt, Str(AsStringPtr, s), Str(AsStringPtr, t))
  {
    var n := Num(AsDouble, rt.stringToNumber(s));
    PrimitiveEquality(rt, Str(AsStringPtr, s), n);
    PrimitiveEquality(rt, n, Str(AsStringPtr, t));
    PrimitiveEquality(rt, Str(AsStringPtr, s), Str(AsStringPtr, t));
  }

  /** Among primitives, that is the only way: two things equal to a third differ if and only if they
      are different strings. */
  lemma {:induction false} PrimitivesTransitive(rt: Runtime, a: Atom, b: Atom, c: Atom)
    requires !a.Obj? && !b.Obj? && !c.Obj?
    requires IsEqual(rt, a, b) && IsEqual(rt, b, c)
    ensures IsEqual(rt, a, c) <==> (a.Str? && c.Str? ==> a.s == c.s)
  {
    PrimitiveEquality(rt, a, b);
    PrimitiveEquality(rt, b, c);
    PrimitiveEquality(rt, a, c);
  }

  predicate SameStrings(a: Atom, b: Atom) { a.Str? && b.Str? ==> a.s == b.s }

  /** `p` agrees with `c`, given that `q` does. */
  predicate Replaces(rt: Runtime, p: Atom, q: Atom, c: Atom) {
    !p.Obj? &&
    if PrimitivesAgree(rt, p, q) then SameStrings(p, c)
    else p.Str? && q.Str? && !c.Str? && rt.stringToNumber(p.s) == rt.stringToNumber(q.s)
  }

  /** With objects there are two more ways to fail, both from version 6 on: two different objects with
      one primitive value, and one object with two. */
  lemma {:induction false} TransitiveIff(rt: Runtime, a: Atom, b: Atom, c: Atom)
    requires IsEqual(rt, a, b) && IsEqual(rt, b, c)
    ensures var p, q, r := ToPrimitive(rt, a), ToPrimitive(rt, b), ToPrimitive(rt, c);
      IsEqual(rt, a, c) <==>
        if rt.swfVersion < 6 then SameStrings(p, r)
        else if a.Obj? && c.Obj? then b.Obj? || SameObject(a.o, c.o)
        else if a.Obj? && b.Obj? then Replaces(rt, p, q, c)
        else if b.Obj? && c.Obj? then Replaces(rt, r, q, a)
        else SameStrings(p, r)
  {
    EqualityIsAgreement(rt, a, b);
    EqualityIsAgreement(rt, b, c);
    EqualityIsAgreement(rt, a, c);
    hide IsEqual;
  }

  /** The second way: one XML node behind two objects, of which only one stands for a number. */
  lemma {:induction false} ValueOfMatters(rt: Runtime, node: nat, d: Double)
    requires rt.swfVersion >= 6 && rt.valueOf(XmlNode(0, node)) == Undefined && d != NaN
    requires rt.valueOf(XmlNode(1, node)) == Num(AsDouble, d)
    ensures var a, b, c := Obj(XmlNode(0, node)), Obj(XmlNode(1, node)), Num(AsDouble, d);
      IsEqual(rt, a, b) && IsEqual(rt, b, c) && !IsEqual(rt, a, c)
  {
    var a, b, c := Obj(XmlNode(0, node)), Obj(XmlNode(1, node)), Num(AsDouble, d);
    EqualityIsAgreement(rt, a, b);
    EqualityIsAgreement(rt, b, c);
    EqualityIsAgreement(rt, a, c);
  }
}
