/** Arithmetic on numbers held as 32-bit integers, signed or unsigned, or as doubles. Doubles are reals
    here, with NaN and the infinities apart: rounding and the sign of zero are not part of this model.
 */
module Numbers {

  const TWO_31: int := 0x8000_0000
  const TWO_32: int := 0x1_0000_0000
  const INT32_MIN: int := -0x8000_0000
  const INT32_MAX: int := 0x7fff_ffff
  const UINT32_MAX: int := 0xffff_ffff

  datatype Double = NaN | PosInf | NegInf | Finite(r: real)

  datatype Number = Int(i: int) | UInt(u: int) | Number(d: Double) {
    predicate Valid() {
      match this
      case Int(i) => INT32_MIN <= i <= INT32_MAX
      case UInt(u) => 0 <= u <= UINT32_MAX
      case Number(_) => true
    }

    predicate IsInteger() { Int? || UInt? }

    function ToInt64(): int
      requires IsInteger()
    {
      if Int? then i else u
    }

    /** The number held, whatever the encoding. */
    function ToDouble(): Double {
      match this
      case Int(i) => Finite(i as real)
      case UInt(u) => Finite(u as real)
      case Number(d) => d
    }
  }

  /** The low 32 bits as a signed integer: int32_t(res). */
  function Wrap32(res: int): (r: int)
    ensures INT32_MIN <= r <= INT32_MAX && (r - res) % TWO_32 == 0
    ensures INT32_MIN <= res <= INT32_MAX ==> r == res
  {
    var low := res % TWO_32;
    if low < TWO_31 then low else low - TWO_32
  }

  /** The encoding chosen for the result of integer arithmetic. */
  function FromInt64(res: int, forceint: bool): Number {
    if forceint || INT32_MIN < res < INT32_MAX then Int(Wrap32(res))
    else if 0 <= res < UINT32_MAX then UInt(res)
    else Number(Finite(res as real))
  }

  function Negate(d: Double): Double {
    match d
    case NaN => NaN
    case PosInf => NegInf
    case NegInf => PosInf
    case Finite(r) => Finite(-r)
  }

  function AddDoubles(x: Double, y: Double): Double {
    match (x, y)
    case (NaN, _) => NaN
    case (_, NaN) => NaN
    case (PosInf, NegInf) => NaN
    case (NegInf, PosInf) => NaN
    case (Finite(a), Finite(b)) => Finite(a + b)
    case (Finite(_), _) => y
    case (_, _) => x
  }

  /** Addition has a zero, does not depend on the order, is associative among finite numbers and with an
      infinity, and a NaN makes it NaN; an infinity stays itself unless the opposite one is added. */
  lemma AddDoublesLaws(x: Double, y: Double, z: Double)
    ensures AddDoubles(x, Finite(0.0)) == x && AddDoubles(x, y) == AddDoubles(y, x)
    ensures AddDoubles(x, NaN) == NaN
    ensures x.Finite? ==> AddDoubles(PosInf, x) == PosInf && AddDoubles(NegInf, x) == NegInf
    ensures AddDoubles(PosInf, PosInf) == PosInf && AddDoubles(NegInf, NegInf) == NegInf
    ensures AddDoubles(PosInf, NegInf) == NaN
    ensures x.Finite? && y.Finite? ==> AddDoubles(x, y) == Finite(x.r + y.r)
    ensures AddDoubles(AddDoubles(x, y), z) == AddDoubles(x, AddDoubles(y, z))
  {
  }

  /** Subtracting a number from itself gives zero, or NaN where there is no difference; negating twice
      changes nothing, and turns the infinities and only them into each other. */
  lemma NegateLaws(x: Double)
    ensures Negate(Negate(x)) == x
    ensures AddDoubles(x, Negate(x)) == if x.Finite? then Finite(0.0) else NaN
    ensures (x == PosInf <==> Negate(x) == NegInf) && (x == NaN <==> Negate(x) == NaN)
  {
  }

  /** The integer branch of add, then its double branch. */
  function Add(a: Number, b: Number): Number {
    if a.IsInteger() && b.IsInteger() then FromInt64(a.ToInt64() + b.ToInt64(), false)
    else Number(AddDoubles(a.ToDouble(), b.ToDouble()))
  }

  function Subtract(a: Number, b: Number): Number {
    if a.IsInteger() && b.IsInteger() then FromInt64(a.ToInt64() - b.ToInt64(), false)
    else Number(AddDoubles(a.ToDouble(), Negate(b.ToDouble())))
  }

  /** The result is a well-formed atom that decodes to the exact sum or difference, for every mix of
      encodings. */
  lemma ArithmeticIsExact(a: Number, b: Number)
    requires a.Valid() && b.Valid()
    ensures Add(a, b).Valid() && Add(a, b).ToDouble() == AddDoubles(a.ToDouble(), b.ToDouble())
    ensures Subtract(a, b).Valid()
    ensures Subtract(a, b).ToDouble() == AddDoubles(a.ToDouble(), Negate(b.ToDouble()))
  {
  }

  /** Which encoding an integer result takes: signed strictly between the limits, so that INT32_MAX comes out
      unsigned and INT32_MIN as a double; unsigned below UINT32_MAX; and two that are equal take the same. */
  lemma EncodingOfResult(a: Number, b: Number, c: Number, d: Number)
    requires a.IsInteger() && b.IsInteger() && a.Valid() && b.Valid()
    requires c.IsInteger() && d.IsInteger() && c.Valid() && d.Valid()
    ensures var res := a.ToInt64() + b.ToInt64();
      && (Add(a, b).Int? <==> INT32_MIN < res < INT32_MAX)
      && (Add(a, b).UInt? <==> INT32_MAX <= res < UINT32_MAX)
    ensures a.ToInt64() + b.ToInt64() == c.ToInt64() - d.ToInt64() <==> Add(a, b) == Subtract(c, d)
  {
    ArithmeticIsExact(a, b);
    ArithmeticIsExact(c, d);
  }

  /** With forceint the result is the integer that the exact one is modulo 2^32. */
  lemma ForcedIsModular(a: Number, b: Number)
    requires a.Valid() && b.Valid() && a.IsInteger() && b.IsInteger()
    ensures var r := FromInt64(a.ToInt64() + b.ToInt64(), true);
      r.Int? && r.Valid() && (r.i - (a.ToInt64() + b.ToInt64())) % TWO_32 == 0
    ensures var r := FromInt64(a.ToInt64() - b.ToInt64(), true);
      r.Int? && r.Valid() && (r.i - (a.ToInt64() - b.ToInt64())) % TWO_32 == 0
  {
  }

  datatype Step = Plus(n: Number) | Minus(n: Number)

  function Perform(start: Number, steps: seq<Step>): Number {
    if steps == [] then start
    else
      var before := Perform(start, steps[..|steps| - 1]);
      match steps[|steps| - 1]
      case Plus(n) => Add(before, n)
      case Minus(n) => Subtract(before, n)
  }

  function Meaning(start: Double, steps: seq<Step>): Double {
    if steps == [] then start
    else
      var before := Meaning(start, steps[..|steps| - 1]);
      match steps[|steps| - 1]
      case Plus(n) => AddDoubles(before, n.ToDouble())
      case Minus(n) => AddDoubles(before, Negate(n.ToDouble()))
  }

  /** Any sequence of additions and subtractions computes the exact result; the switches between
      encodings on the way never show. */
  lemma {:induction false} SequenceIsExact(start: Number, steps: seq<Step>)
    requires start.Valid() && forall s :: s in steps ==> s.n.Valid()
    ensures Perform(start, steps).Valid()
    ensures Perform(start, steps).ToDouble() == Meaning(start.ToDouble(), steps)
  {
    if steps != [] {
      SequenceIsExact(start, steps[..|steps| - 1]);
      ArithmeticIsExact(Perform(start, steps[..|steps| - 1]), steps[|steps| - 1].n);
    }
  }

  /** floor(fabs(val)) of a finite number. */
  function AbsFloor(r: real): (n: nat)
    ensures r >= 0.0 ==> n as real <= r < n as real + 1.0
    ensures r < 0.0 ==> n as real <= -r < n as real + 1.0
  {
    if r < 0.0 then (-r).Floor else r.Floor
  }

  /** C's unsigned subtraction and addition of 32 bits, returned as int32_t. */
  function AsInt32(unsigned: int): int { Wrap32(unsigned % TWO_32) }

  function NumberToInt(val: Double): int {
    if !val.Finite? || val.r == 0.0 then 0
    else
      var floored := AbsFloor(val.r);
      var posInt := if floored > UINT32_MAX then floored % TWO_32 else floored;
      if posInt >= TWO_31 then
        if val.r < 0.0 then AsInt32(TWO_31 - (posInt - TWO_31)) else AsInt32(TWO_31 + (posInt - TWO_31))
      else if val.r < 0.0 then -posInt else posInt
  }

  /** sign(r) * floor(abs(r)), step 3 of section 9.5 of ECMA-262. */
  function Truncate(r: real): int { if r < 0.0 then -(AbsFloor(r) as int) else AbsFloor(r) }

  /** The conversion of section 9.5 of ECMA-262: the truncated number modulo 2^32, in [-2^31, 2^31). */
  lemma NumberToIntIsToInt32(val: Double)
    ensures INT32_MIN <= NumberToInt(val) <= INT32_MAX
    ensures val.Finite? ==> (NumberToInt(val) - Truncate(val.r)) % TWO_32 == 0
    ensures !val.Finite? ==> NumberToInt(val) == 0
  {
  }

  /** Only one integer meets that description. */
  lemma ToInt32IsUnique(a: int, b: int, n: int)
    requires INT32_MIN <= a <= INT32_MAX && INT32_MIN <= b <= INT32_MAX
    requires (a - n) % TWO_32 == 0 && (b - n) % TWO_32 == 0
    ensures a == b
  {
  }

  /** The conversion undoes every integer encoding: signed exactly, unsigned modulo 2^32. */
  lemma ToIntOfInteger(a: Number)
    requires a.Valid() && a.IsInteger()
    ensures NumberToInt(a.ToDouble()) == Wrap32(a.ToInt64())
  {
    NumberToIntIsToInt32(a.ToDouble());
    assert Truncate(a.ToDouble().r) == a.ToInt64();
    ToInt32IsUnique(NumberToInt(a.ToDouble()), Wrap32(a.ToInt64()), a.ToInt64());
  }
}
