/** Integers in boxes: the bits of Atoms read as the integers of Numbers. */
module NumberAtoms {
  import opened Numbers
  import A = Atoms

  // ----- bits and integers -----

  lemma Below32(b: bv32)
    ensures 0 <= b as int < TWO_32
    ensures b < 0x8000_0000 <==> b as int < TWO_31
  {
  }

  lemma BitsOfReading(b: bv32)
    ensures (b as int) as bv32 == b
  {
  }

  lemma Nibble(x: int)
    requires 0 <= x < 0x10
    ensures (x as bv4) as int == x
  {
  }

  lemma TwoNibbles(hi: bv4, lo: bv4)
    ensures (((hi as bv8) << 4) | (lo as bv8)) as int == (hi as int) * 0x10 + lo as int
  {
  }

  lemma TwoBytes(hi: bv8, lo: bv8)
    ensures (((hi as bv16) << 8) | (lo as bv16)) as int == (hi as int) * 0x100 + lo as int
  {
  }

  lemma TwoWords(hi: bv16, lo: bv16)
    ensures (((hi as bv32) << 16) | (lo as bv32)) as int == (hi as int) * 0x1_0000 + lo as int
  {
  }

  lemma ByteWith(x: int) returns (b: bv8)
    requires 0 <= x < 0x100
    ensures b as int == x
  {
    Nibble(x / 0x10);
    Nibble(x % 0x10);
    var hi, lo := (x / 0x10) as bv4, (x % 0x10) as bv4;
    TwoNibbles(hi, lo);
    b := ((hi as bv8) << 4) | (lo as bv8);
  }

  lemma WordWith(x: int) returns (b: bv16)
    requires 0 <= x < 0x1_0000
    ensures b as int == x
  {
    var hi := ByteWith(x / 0x100);
    var lo := ByteWith(x % 0x100);
    TwoBytes(hi, lo);
    b := ((hi as bv16) << 8) | (lo as bv16);
  }

  /** Every integer of 32 bits is the reading of some bits, hence of its own. */
  lemma ReadingOfBits(x: int)
    requires 0 <= x < TWO_32
    ensures (x as bv32) as int == x
  {
    var hi := WordWith(x / 0x1_0000);
    var lo := WordWith(x % 0x1_0000);
    var b := ((hi as bv32) << 16) | (lo as bv32);
    TwoWords(hi, lo);
    BitsOfReading(b);
  }

  // ----- the boxes -----

  /** The conversion of an integer to 32 bits. */
  function ToBits(i: int): bv32 { (i % TWO_32) as bv32 }

  /** int32_t and uint32_t of the low 32 bits. */
  function Signed(bits: bv32): int {
    if bits < 0x8000_0000 then bits as int else bits as int - TWO_32
  }

  function Unsigned(bits: bv32): int { bits as int }

  predicate IsBoxed(atom: bv64) { A.IsInteger(atom) || A.IsUInteger(atom) }

  /** toInt64's reading of an atom that holds an integer. */
  function Read(atom: bv64): Number
    requires IsBoxed(atom)
  {
    var bits := (atom & A.LOW_32) as bv32;
    if A.IsInteger(atom) then Int(Signed(bits)) else UInt(Unsigned(bits))
  }

  /** setInt and setUInt. */
  function Box(n: Number): bv64
    requires n.IsInteger()
  {
    if n.Int? then A.FromInt(ToBits(n.i)) else A.FromUInt(ToBits(n.u))
  }

  lemma SignedIsWrapped(i: int)
    ensures Signed(ToBits(i)) == Wrap32(i)
  {
    ReadingOfBits(i % TWO_32);
    Below32(ToBits(i));
  }

  lemma ReadIsValid(atom: bv64)
    requires IsBoxed(atom)
    ensures Read(atom).Valid() && Read(atom).IsInteger()
  {
    Below32((atom & A.LOW_32) as bv32);
  }

  lemma ReadInt(bits: bv32)
    ensures A.IsInteger(A.FromInt(bits)) && Read(A.FromInt(bits)) == Int(Signed(bits))
  {
    hide Signed;
    A.IntBits(bits);
  }

  lemma ReadUInt(bits: bv32)
    ensures IsBoxed(A.FromUInt(bits)) && Read(A.FromUInt(bits)) == UInt(Unsigned(bits))
  {
    hide Unsigned, Signed;
    A.UIntBits(bits);
  }

  /** Every integer that fits is read back with its sign, and the low 32 bits of any other. */
  lemma ReadBox(n: Number)
    requires n.IsInteger()
    ensures IsBoxed(Box(n))
    ensures Read(Box(n)) == if n.Int? then Int(Wrap32(n.i)) else UInt(n.u % TWO_32)
    ensures n.Valid() ==> Read(Box(n)) == n
  {
    if n.Int? { SignedIsWrapped(n.i); } else { ReadingOfBits(n.u % TWO_32); }
    hide Signed, A.FromInt, A.FromUInt, A.IsInteger, A.IsUInteger, Read;
    if n.Int? { ReadInt(ToBits(n.i)); } else { ReadUInt(ToBits(n.u)); }
  }

  /** The low half of a box is all there is to it, so every atom is the box of what it reads as. */
  lemma BoxRead(atom: bv64)
    requires IsBoxed(atom) && atom & !(A.TYPE_BITS | A.LOW_32) == 0
    ensures Box(Read(atom)) == atom
  {
    var bits := (atom & A.LOW_32) as bv32;
    BitsOfSigned(bits);
    BitsOfUnsigned(bits);
    SameTag(atom);
    hide ToBits, Signed, Unsigned, A.FromInt, A.FromUInt, A.IsInteger, A.IsUInteger;
  }

  lemma BitsOfUnsigned(bits: bv32)
    ensures ToBits(Unsigned(bits)) == bits
  {
    Below32(bits);
    BitsOfReading(bits);
  }

  lemma BitsOfSigned(bits: bv32)
    ensures ToBits(Signed(bits)) == bits
  {
    SignedModulo(bits);
    BitsOfReading(bits);
    hide Signed;
  }

  lemma SignedModulo(bits: bv32)
    ensures Signed(bits) % TWO_32 == bits as int
  {
    Below32(bits);
    var x := bits as int;
    Modulo(x);
  }

  lemma Modulo(x: int)
    requires 0 <= x < TWO_32
    ensures x % TWO_32 == x && (x - TWO_32) % TWO_32 == x
  {
  }

  lemma SameTag(atom: bv64)
    requires atom & !(A.TYPE_BITS | A.LOW_32) == 0
    ensures A.IsInteger(atom) ==> A.FromInt((atom & A.LOW_32) as bv32) == atom
    ensures A.IsUInteger(atom) ==> A.FromUInt((atom & A.LOW_32) as bv32) == atom
  {
  }

  /** Hence two signed boxes read as the same integer exactly when their bits are the same. */
  lemma SameIntegerSameBits(x: bv64, y: bv64)
    requires A.IsInteger(x) && A.IsInteger(y)
    requires x & !(A.TYPE_BITS | A.LOW_32) == 0 && y & !(A.TYPE_BITS | A.LOW_32) == 0
    ensures Read(x) == Read(y) <==> x == y
  {
    BoxRead(x);
    BoxRead(y);
    hide Read, Box, A.IsInteger, A.IsUInteger;
  }

  // ----- arithmetic on boxes -----

  /** What add and subtract leave in an atom: a box, or a double that is not one. */
  datatype Result = Boxed(atom: bv64) | Unboxed(d: Double) {
    predicate Ok() { Boxed? ==> IsBoxed(atom) }

    function Value(): Double
      requires Ok()
    {
      if Boxed? then Read(atom).ToDouble() else d
    }
  }

  function Store(n: Number): Result {
    if n.IsInteger() then Boxed(Box(n)) else Unboxed(n.d)
  }

  function AddAtoms(x: bv64, y: bv64, forceint: bool): Result
    requires IsBoxed(x) && IsBoxed(y)
  {
    Store(FromInt64(Read(x).ToInt64() + Read(y).ToInt64(), forceint))
  }

  function SubtractAtoms(x: bv64, y: bv64, forceint: bool): Result
    requires IsBoxed(x) && IsBoxed(y)
  {
    Store(FromInt64(Read(x).ToInt64() - Read(y).ToInt64(), forceint))
  }

  lemma StoreKeeps(n: Number)
    requires n.Valid()
    ensures Store(n).Ok() && Store(n).Value() == n.ToDouble()
  {
    if n.IsInteger() { ReadBox(n); }
  }

  /** Adding or subtracting any two boxes leaves an atom that reads as the exact result. */
  lemma AtomsAreExact(x: bv64, y: bv64)
    requires IsBoxed(x) && IsBoxed(y)
    ensures AddAtoms(x, y, false).Ok() && SubtractAtoms(x, y, false).Ok()
    ensures AddAtoms(x, y, false).Value() == Finite((Read(x).ToInt64() + Read(y).ToInt64()) as real)
    ensures SubtractAtoms(x, y, false).Value() == Finite((Read(x).ToInt64() - Read(y).ToInt64()) as real)
  {
    hide Read, IsBoxed, Box;
    ReadIsValid(x);
    ReadIsValid(y);
    ArithmeticIsExact(Read(x), Read(y));
    StoreKeeps(Add(Read(x), Read(y)));
    StoreKeeps(Subtract(Read(x), Read(y)));
  }

  /** With forceint, one that reads as the integer the result is modulo 2^32. */
  lemma ForcedAtomsAreModular(x: bv64, y: bv64)
    requires IsBoxed(x) && IsBoxed(y)
    ensures var sum, difference := Read(x).ToInt64() + Read(y).ToInt64(), Read(x).ToInt64() - Read(y).ToInt64();
      && AddAtoms(x, y, true).Ok() && AddAtoms(x, y, true).Value() == Finite(Wrap32(sum) as real)
      && SubtractAtoms(x, y, true).Ok() && SubtractAtoms(x, y, true).Value() == Finite(Wrap32(difference) as real)
  {
    hide Read, IsBoxed, Box;
    ReadIsValid(x);
    ReadIsValid(y);
    ForcedIsModular(Read(x), Read(y));
    StoreKeeps(FromInt64(Read(x).ToInt64() + Read(y).ToInt64(), true));
    StoreKeeps(FromInt64(Read(x).ToInt64() - Read(y).ToInt64(), true));
  }
}
