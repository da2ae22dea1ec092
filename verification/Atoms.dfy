/** Values of the virtual machine in 64 bits: a double, or another value boxed in the NaNs. */
module Atoms {

  const ATOM_SPECIAL: bv64 := 0xfff9_0000_0000_0000
  const ATOM_UINTEGER: bv64 := 0xfffa_0000_0000_0000
  const ATOM_INTEGER: bv64 := 0xfffb_0000_0000_0000
  const ATOM_STRINGPTR: bv64 := 0xfffc_0000_0000_0000
  const ATOM_U_INTEGERPTR: bv64 := 0xfffd_0000_0000_0000
  const ATOM_NUMBERPTR: bv64 := 0xfffe_0000_0000_0000
  const ATOM_OBJECTPTR: bv64 := 0xffff_0000_0000_0000

  const STRINGID_BIT: bv64 := 0x8000_0000_0000
  const NULL_BIT: bv64 := 0x4000_0000_0000
  const UNDEFINED_BIT: bv64 := 0x2000_0000_0000
  const BOOL_BIT: bv64 := 0x1000_0000_0000
  const BOOL_VALUE_BIT: bv64 := 0x0800_0000_0000
  const BIT_FLAGS: bv64 := 0xf000_0000_0000
  const OBJECT_BITS: bv64 := 0xfff4_0000_0000_0000
  const TYPE_BITS: bv64 := 0xffff_0000_0000_0000
  const LOW_32: bv64 := 0xffff_ffff

  datatype PointerKind = StringPtr | UIntegerPtr | NumberPtr | ObjectPtr

  datatype Value =
    | Invalid
    | Undefined
    | Null
    | Bool(b: bool)
    | StringId(id: bv32)
    | UInt(bits: bv32)
    | Int(bits: bv32)
    | Pointer(kind: PointerKind, address: bv64)
    | Double(double: bv64)

  function PointerTag(kind: PointerKind): bv64 {
    match kind
    case StringPtr => ATOM_STRINGPTR
    case UIntegerPtr => ATOM_U_INTEGERPTR
    case NumberPtr => ATOM_NUMBERPTR
    case ObjectPtr => ATOM_OBJECTPTR
  }

  function FromBool(b: bool): bv64 { ATOM_SPECIAL | BOOL_BIT | if b then BOOL_VALUE_BIT else 0 }
  function FromStringId(id: bv32): bv64 { (id as bv64) | ATOM_SPECIAL | STRINGID_BIT }
  function FromUInt(bits: bv32): bv64 { ((bits as bv64) & LOW_32) | ATOM_UINTEGER }
  function FromInt(bits: bv32): bv64 { ((bits as bv64) & LOW_32) | ATOM_INTEGER }

  function Encode(v: Value): bv64 {
    match v
    case Invalid => ATOM_SPECIAL
    case Undefined => ATOM_SPECIAL | UNDEFINED_BIT
    case Null => ATOM_SPECIAL | NULL_BIT
    case Bool(b) => FromBool(b)
    case StringId(id) => FromStringId(id)
    case UInt(bits) => FromUInt(bits)
    case Int(bits) => FromInt(bits)
    case Pointer(kind, address) => PointerTag(kind) | address
    case Double(double) => double
  }

  /** The switches on the type bits, then on the flags. */
  function Decode(a: bv64): Value {
    var t := a & TYPE_BITS;
    if t == ATOM_INTEGER then Int((a & LOW_32) as bv32)
    else if t == ATOM_UINTEGER then UInt((a & LOW_32) as bv32)
    else if t == ATOM_STRINGPTR then Pointer(StringPtr, a & !TYPE_BITS)
    else if t == ATOM_U_INTEGERPTR then Pointer(UIntegerPtr, a & !TYPE_BITS)
    else if t == ATOM_NUMBERPTR then Pointer(NumberPtr, a & !TYPE_BITS)
    else if t == ATOM_OBJECTPTR then Pointer(ObjectPtr, a & !TYPE_BITS)
    else if t == ATOM_SPECIAL then
      var flags := a & BIT_FLAGS;
      if flags == STRINGID_BIT then StringId((a & LOW_32) as bv32)
      else if flags == NULL_BIT then Null
      else if flags == UNDEFINED_BIT then Undefined
      else if flags == BOOL_BIT then Bool(a & BOOL_VALUE_BIT != 0)
      else Invalid
    else Double(a)
  }

  /** A NaN: all exponent bits set and a significand that is not zero. */
  predicate IsNaN(double: bv64) { double & 0x7fff_ffff_ffff_ffff > 0x7ff0_0000_0000_0000 }

  /** The NaNs that arithmetic produces: quiet, without a payload, of either sign. */
  predicate Canonical(double: bv64) {
    IsNaN(double) ==> double == 0x7ff8_0000_0000_0000 || double == 0xfff8_0000_0000_0000
  }

  predicate Storable(v: Value) {
    match v
    case Pointer(_, address) => address & TYPE_BITS == 0
    case Double(double) => Canonical(double)
    case _ => true
  }

  predicate IsInvalid(a: bv64) { a == ATOM_SPECIAL }
  predicate IsNull(a: bv64) { a & (TYPE_BITS | BIT_FLAGS) == ATOM_SPECIAL | NULL_BIT }
  predicate IsUndefined(a: bv64) { a & (TYPE_BITS | BIT_FLAGS) == ATOM_SPECIAL | UNDEFINED_BIT }
  predicate IsBool(a: bv64) { a & (TYPE_BITS | BIT_FLAGS) == ATOM_SPECIAL | BOOL_BIT }
  predicate IsStringId(a: bv64) { a & (TYPE_BITS | BIT_FLAGS) == ATOM_SPECIAL | STRINGID_BIT }
  predicate IsUInteger(a: bv64) { a & TYPE_BITS == ATOM_UINTEGER }
  predicate IsInteger(a: bv64) { a & TYPE_BITS == ATOM_INTEGER }
  predicate IsObject(a: bv64) { a & OBJECT_BITS == OBJECT_BITS }
  predicate IsObjectPtr(a: bv64) { a & TYPE_BITS == ATOM_OBJECTPTR }
  predicate IsNumber(a: bv64) {
    a & 0xfff8_0000_0000_0000 != 0xfff8_0000_0000_0000 || a == 0xfff8_0000_0000_0000
  }

  lemma IntBits(bits: bv32)
    ensures FromInt(bits) & TYPE_BITS == ATOM_INTEGER && (FromInt(bits) & LOW_32) as bv32 == bits
  {
  }

  lemma UIntBits(bits: bv32)
    ensures FromUInt(bits) & TYPE_BITS == ATOM_UINTEGER && (FromUInt(bits) & LOW_32) as bv32 == bits
  {
  }

  lemma StringIdBits(id: bv32)
    ensures FromStringId(id) & TYPE_BITS == ATOM_SPECIAL && FromStringId(id) & BIT_FLAGS == STRINGID_BIT
    ensures (FromStringId(id) & LOW_32) as bv32 == id
  {
  }

  lemma PointerBits(tag: bv64, address: bv64)
    requires address & TYPE_BITS == 0 && tag & TYPE_BITS == tag
    ensures (tag | address) & TYPE_BITS == tag && (tag | address) & !TYPE_BITS == address
  {
  }

  /** The tag of a canonical double is none of those in use. */
  lemma DoubleBits(double: bv64)
    requires Canonical(double)
    ensures double & TYPE_BITS < ATOM_SPECIAL && double < ATOM_SPECIAL
  {
  }

  lemma DecodeInt(bits: bv32)
    ensures Decode(FromInt(bits)) == Int(bits)
  {
    IntBits(bits);
  }

  lemma DecodeUInt(bits: bv32)
    ensures Decode(FromUInt(bits)) == UInt(bits)
  {
    UIntBits(bits);
  }

  lemma DecodeStringId(id: bv32)
    ensures Decode(FromStringId(id)) == StringId(id)
  {
    StringIdBits(id);
  }

  lemma DecodePointer(kind: PointerKind, address: bv64)
    requires address & TYPE_BITS == 0
    ensures Decode(PointerTag(kind) | address) == Pointer(kind, address)
  {
    PointerBits(PointerTag(kind), address);
  }

  lemma DecodeDouble(double: bv64)
    requires Canonical(double)
    ensures Decode(double) == Double(double)
  {
    DoubleBits(double);
  }

  lemma DecodeConstants(b: bool)
    ensures Decode(FromBool(b)) == Bool(b)
    ensures Decode(Encode(Invalid)) == Invalid && Decode(Encode(Null)) == Null && Decode(Encode(Undefined)) == Undefined
  {
  }

  /** What is stored is what is read back. */
  lemma DecodeEncode(v: Value)
    requires Storable(v)
    ensures Decode(Encode(v)) == v
  {
    match v
    case StringId(id) => DecodeStringId(id);
    case UInt(bits) => DecodeUInt(bits);
    case Int(bits) => DecodeInt(bits);
    case Pointer(kind, address) => DecodePointer(kind, address);
    case Double(double) => DecodeDouble(double);
    case Bool(b) => DecodeConstants(b);
    case _ => DecodeConstants(true);
  }

  /** Hence no two values share an encoding, and every test is true of exactly the values it names. */
  lemma EncodingIsInjective(v: Value, w: Value)
    requires Storable(v) && Storable(w) && Encode(v) == Encode(w)
    ensures v == w
  {
    DecodeEncode(v);
    DecodeEncode(w);
  }

  /** Every test of `a` is true of exactly the values it names. */
  predicate TestsTell(a: bv64, v: Value) {
    && (IsInvalid(a) <==> v.Invalid?) && (IsNull(a) <==> v.Null?) && (IsUndefined(a) <==> v.Undefined?)
    && (IsBool(a) <==> v.Bool?) && (IsStringId(a) <==> v.StringId?)
    && (IsUInteger(a) <==> v.UInt?) && (IsInteger(a) <==> v.Int?)
    && (IsObject(a) <==> v.Pointer?) && (IsObjectPtr(a) <==> v.Pointer? && v.kind.ObjectPtr?)
    && (IsNumber(a) <==> v.Double?)
  }

  lemma TestsTellInt(bits: bv32)
    ensures TestsTell(FromInt(bits), Int(bits))
  {
  }

  lemma TestsTellUInt(bits: bv32)
    ensures TestsTell(FromUInt(bits), UInt(bits))
  {
  }

  lemma TestsTellStringId(id: bv32)
    ensures TestsTell(FromStringId(id), StringId(id))
  {
  }

  lemma TestsTellPointer(kind: PointerKind, address: bv64)
    requires address & TYPE_BITS == 0
    ensures TestsTell(PointerTag(kind) | address, Pointer(kind, address))
  {
  }

  lemma TestsTellDouble(double: bv64)
    requires Canonical(double)
    ensures TestsTell(double, Double(double))
  {
  }

  lemma TestsTellConstants(b: bool)
    ensures TestsTell(FromBool(b), Bool(b)) && TestsTell(Encode(Invalid), Invalid)
    ensures TestsTell(Encode(Null), Null) && TestsTell(Encode(Undefined), Undefined)
  {
  }

  lemma TestsAreExact(v: Value)
    requires Storable(v)
    ensures TestsTell(Encode(v), v)
  {
    match v
    case StringId(id) => TestsTellStringId(id);
    case UInt(bits) => TestsTellUInt(bits);
    case Int(bits) => TestsTellInt(bits);
    case Pointer(kind, address) => TestsTellPointer(kind, address);
    case Double(double) => TestsTellDouble(double);
    case Bool(b) => TestsTellConstants(b);
    case _ => TestsTellConstants(true);
  }

  /** A double is read back as the same double if and only if it is not one of the NaNs used as boxes. */
  lemma DoubleSurvives(double: bv64)
    ensures Decode(Encode(Double(double))) == Double(double) <==> double < ATOM_SPECIAL
    ensures double >= ATOM_SPECIAL ==> IsNaN(double)
  {
  }

  /** Quiet NaNs with a payload are boxes: this one reads as the integer 1. */
  lemma NaNReadAsInteger()
    ensures IsNaN(0xfffb_0000_0000_0001) && Decode(Encode(Double(0xfffb_0000_0000_0001))) == Int(1)
  {
  }
}
