/** When the name of a property is an array index. */
module ArrayIndex {
  import opened Numbers

  const LAST_BUILTIN_STRING: nat := 337
  const TWO_64: int := 0x1_0000_0000_0000_0000

  datatype Name = NameString(id: nat) | NameObject(text: string) | NameInt(i: int) | NameUInt(u: int) | NameNumber(d: Double)

  predicate IsDigit(c: char) { '0' <= c <= '9' }

  predicate Digits(s: string) { forall c :: c in s ==> IsDigit(c) }

  function DigitValue(c: char): nat
    requires IsDigit(c)
  {
    c as int - '0' as int
  }

  /** The number a string of digits denotes. */
  function Value(s: string): nat
    requires Digits(s)
  {
    if s == "" then 0 else 10 * Value(s[..|s| - 1]) + DigitValue(s[|s| - 1])
  }

  /** The number of digits a string begins with. */
  function Lead(s: string): (n: nat)
    ensures n <= |s| && Digits(s[..n]) && (n < |s| ==> !IsDigit(s[n]))
  {
    if s == "" || !IsDigit(s[0]) then 0
    else
      assert s[1..][..Lead(s[1..])] == s[1..Lead(s[1..]) + 1];
      Lead(s[1..]) + 1
  }

  /** Digits, and with fractions also digits, a dot and zeros. */
  predicate Numeral(s: string, fractions: bool) {
    var n := Lead(s);
    n > 0 && (n == |s| || (fractions && s[n] == '.' && forall i :: n < i < |s| ==> s[i] == '0'))
  }

  function IntegerPart(s: string): nat { Value(s[..Lead(s)]) }

  lemma {:induction false} LeadIsLongest(s: string, k: nat)
    requires k <= |s| && Digits(s[..k])
    ensures k <= Lead(s)
  {
    forall i | 0 <= i < k ensures IsDigit(s[i]) {
      assert s[..k][i] == s[i];
    }
  }

  /** The digits end at the first other character. */
  lemma {:induction false} LeadIs(s: string, k: nat)
    requires k <= |s| && Digits(s[..k]) && (k < |s| ==> !IsDigit(s[k]))
    ensures Lead(s) == k && IntegerPart(s) == Value(s[..k])
  {
    LeadIsLongest(s, k);
    LeadingDigits(s);
  }

  lemma {:induction false} LeadingDigits(s: string)
    ensures forall i :: 0 <= i < Lead(s) ==> IsDigit(s[i])
  {
    forall i | 0 <= i < Lead(s) ensures IsDigit(s[i]) {
      assert s[..Lead(s)][i] == s[i];
    }
  }

  lemma LowBits(x: nat)
    ensures (x % TWO_64) % TWO_32 == x % TWO_32
  {
    assert x == (x / TWO_64) * TWO_64 + x % TWO_64;
    assert x % TWO_64 == ((x % TWO_64) / TWO_32) * TWO_32 + (x % TWO_64) % TWO_32;
    assert x == ((x / TWO_64) * TWO_32 + (x % TWO_64) / TWO_32) * TWO_32 + (x % TWO_64) % TWO_32;
  }

  lemma {:induction false} ValueGrows(s: string, k: nat)
    requires Digits(s) && k <= |s|
    ensures Value(s[..k]) <= Value(s)
  {
    if k < |s| {
      ValueGrows(s[..|s| - 1], k);
      assert s[..|s| - 1][..k] == s[..k];
    } else {
      assert s[..k] == s;
    }
  }

  lemma ValueStep(s: string, i: nat)
    requires i < |s| && Digits(s[..i]) && IsDigit(s[i])
    ensures Digits(s[..i + 1]) && Value(s[..i + 1]) == 10 * Value(s[..i]) + DigitValue(s[i])
  {
    assert s[..i + 1] == s[..i] + [s[i]];
    assert s[..i + 1][..i] == s[..i];
  }

  /** The 64-bit accumulator after one more digit. */
  function Accumulate(parsed: nat, digit: nat): nat { ((parsed * 10) % TWO_64 + digit) % TWO_64 }

  lemma AccumulateIsModular(value: nat, digit: nat)
    requires digit < 10
    ensures Accumulate(value % TWO_64, digit) == (10 * value + digit) % TWO_64
  {
  }

  lemma NumeralHasNoMinus(s: string, k: nat, fractions: bool)
    requires k <= |s| && Numeral(s, fractions)
    ensures '-' !in s[..k]
  {
    LeadingDigits(s);
  }

  /** What is to be returned. */
  predicate Right(str: string, fractions: bool, forAVM1: bool, ok: bool, index: int) {
    && (ok <==> Numeral(str, fractions) && (forAVM1 || IntegerPart(str) <= UINT32_MAX))
    && (ok ==> index == IntegerPart(str) % TWO_32)
  }

  /** What is known at character i: no minus sign so far and the digits' value, or a minus sign. */
  ghost predicate Scanned(str: string, i: nat, parsed: nat, isnegative: bool, forAVM1: bool) {
    && i <= |str| && (isnegative <==> '-' in str[..i])
    && (!isnegative ==> Digits(str[..i]) && parsed == Value(str[..i]) % TWO_64)
    && (!forAVM1 ==> parsed <= UINT32_MAX && (!isnegative ==> parsed == Value(str[..i])))
  }

  lemma ScanDigit(str: string, i: nat, parsed: nat, isnegative: bool, forAVM1: bool)
    requires Scanned(str, i, parsed, isnegative, forAVM1) && i < |str| && IsDigit(str[i])
    ensures var next := Accumulate(parsed, DigitValue(str[i]));
      && (forAVM1 || next <= UINT32_MAX ==> Scanned(str, i + 1, next, isnegative, forAVM1))
      && (!forAVM1 ==> next == parsed * 10 + DigitValue(str[i]))
  {
    assert str[..i + 1] == str[..i] + [str[i]];
    if !isnegative {
      ValueStep(str, i);
      AccumulateIsModular(Value(str[..i]), DigitValue(str[i]));
    }
  }

  lemma ScanMinus(str: string, i: nat, parsed: nat, isnegative: bool, forAVM1: bool)
    requires Scanned(str, i, parsed, isnegative, forAVM1) && i < |str| && str[i] == '-'
    ensures Scanned(str, i + 1, parsed, true, forAVM1)
  {
    assert str[..i + 1] == str[..i] + [str[i]];
  }

  /** The scan ended at a character that is not a digit, or at the end. */
  lemma ScanEnds(str: string, i: nat, parsed: nat, isnegative: bool, forAVM1: bool, fractions: bool, rest: bool)
    requires Scanned(str, i, parsed, isnegative, forAVM1) && str != ""
    requires i < |str| ==> !IsDigit(str[i]) && str[i] != '-'
    requires rest <==> i > 0 && (i == |str| || (fractions && str[i] == '.' && forall j :: i < j < |str| ==> str[j] == '0'))
    ensures Right(str, fractions, forAVM1, !isnegative && rest, parsed % TWO_32)
  {
    if isnegative {
      if Numeral(str, fractions) {
        NumeralHasNoMinus(str, i, fractions);
        assert false;
      }
    } else {
      LeadIs(str, i);
      LowBits(Value(str[..i]));
    }
  }

  /** The value of the digits so far is too large already; the rest does not matter. */
  lemma ScanOverflows(str: string, i: nat, parsed: nat, isnegative: bool, fractions: bool)
    requires Scanned(str, i, parsed, isnegative, false) && i < |str| && IsDigit(str[i])
    requires parsed * 10 + DigitValue(str[i]) > UINT32_MAX
    ensures Right(str, fractions, false, false, 0)
  {
    if isnegative {
      if Numeral(str, fractions) {
        NumeralHasNoMinus(str, i, fractions);
        assert false;
      }
    } else {
      ValueStep(str, i);
      LeadIsLongest(str, i + 1);
      ValueGrows(str[..Lead(str)], i + 1);
      assert str[..Lead(str)][..i + 1] == str[..i + 1];
    }
  }

  /** The loop over the characters. The minus sign is skipped wherever it stands, and fails in the end.
      For AVM1 there is no limit: the accumulator wraps around. Otherwise it never overflows. */
  method ParseIndex(str: string, acceptStringFractions: bool, forAVM1: bool)
    returns (ok: bool, index: int, isNumber: bool)
    ensures Right(str, acceptStringFractions, forAVM1, ok, index)
    ensures ok ==> isNumber
  {
    ok, index, isNumber := false, 0, false;
    if str == "" { return; }
    var parsed: nat, isnegative := 0, false;
    var i := 0;
    while i < |str|
      invariant Scanned(str, i, parsed, isnegative, forAVM1)
    {
      if str[i] == '-' {
        ScanMinus(str, i, parsed, isnegative, forAVM1);
        isnegative := true;
        i := i + 1;
        continue;
      }
      if str[i] == '.' && acceptStringFractions {
        var zeros := ZerosFrom(str, i + 1);
        ScanEnds(str, i, parsed, isnegative, forAVM1, acceptStringFractions, i > 0 && zeros);
        if i == 0 { return; }
        isNumber := true;
        if !zeros { return; }
        break;
      } else if !IsDigit(str[i]) {
        ScanEnds(str, i, parsed, isnegative, forAVM1, acceptStringFractions, false);
        return;
      }
      ScanDigit(str, i, parsed, isnegative, forAVM1);
      if !forAVM1 && parsed * 10 + DigitValue(str[i]) > UINT32_MAX {
        ScanOverflows(str, i, parsed, isnegative, acceptStringFractions);
      }
      parsed := Accumulate(parsed, DigitValue(str[i]));
      i := i + 1;
      if parsed > UINT32_MAX && !forAVM1 { break; }
    }
    isNumber := true;
    if parsed > UINT32_MAX && !forAVM1 { return; }
    if i == |str| {
      ScanEnds(str, i, parsed, isnegative, forAVM1, acceptStringFractions, true);
    }
    index := parsed % TWO_32;
    ok := !isnegative;
  }

  method ZerosFrom(str: string, start: nat) returns (zeros: bool)
    requires start <= |str|
    ensures zeros <==> forall j :: start <= j < |str| ==> str[j] == '0'
  {
    var i := start;
    while i < |str|
      invariant start <= i <= |str| && forall j :: start <= j < i ==> str[j] == '0'
    {
      if str[i] != '0' { return false; }
      i := i + 1;
    }
    return true;
  }

  function Decimal(n: nat): (s: string)
    ensures s != "" && Digits(s)
  {
    if n < 10 then [(n + '0' as int) as char] else Decimal(n / 10) + [(n % 10 + '0' as int) as char]
  }

  lemma {:induction false} ValueOfDecimal(n: nat)
    ensures Value(Decimal(n)) == n
  {
    var s := Decimal(n);
    if n >= 10 {
      ValueOfDecimal(n / 10);
      assert s[..|s| - 1] == Decimal(n / 10);
    } else {
      assert s[..0] == "";
    }
  }

  /** Parsing undoes the printing of every 32-bit index. */
  lemma {:induction false} DecimalIsIndex(n: nat, fractions: bool)
    requires n <= UINT32_MAX
    ensures Numeral(Decimal(n), fractions) && IntegerPart(Decimal(n)) == n && IntegerPart(Decimal(n)) % TWO_32 == n
  {
    var s := Decimal(n);
    assert s[..|s|] == s;
    LeadIsLongest(s, |s|);
    ValueOfDecimal(n);
  }

  /** The converse holds if and only if there is no leading zero: "01" names element 1 as "1" does. */
  lemma {:induction false} CanonicalIff(s: string)
    requires Digits(s) && s != ""
    ensures Decimal(Value(s)) == s <==> |s| == 1 || s[0] != '0'
  {
    var last := DigitValue(s[|s| - 1]);
    if |s| == 1 {
      assert s[..0] == "";
      assert Value(s) == last;
    } else {
      var front := s[..|s| - 1];
      CanonicalIff(front);
      assert s == front + [s[|s| - 1]];
      assert front[0] == s[0];
      if Value(front) > 0 {
        assert Value(s) / 10 == Value(front) && Value(s) % 10 == last;
        if |front| == 1 { LeadingZero(front); }
      } else {
        ZeroValue(front);
        assert Value(s) < 10 && |Decimal(Value(s))| == 1;
      }
    }
  }

  lemma {:induction false} ZeroValue(s: string)
    requires Digits(s) && Value(s) == 0
    ensures forall c :: c in s ==> c == '0'
  {
    if s != "" {
      ZeroValue(s[..|s| - 1]);
      assert s == s[..|s| - 1] + [s[|s| - 1]];
    }
  }

  /** A single zero denotes zero. */
  lemma {:induction false} LeadingZero(s: string)
    requires Digits(s) && |s| == 1 && Value(s) > 0
    ensures s[0] != '0'
  {
    assert s[..0] == "";
  }

  function Whole(k: int): Double { Finite(k as real) }

  predicate IsIntegral(d: Double) { d.PosInf? || d.NegInf? || (d.Finite? && d.r.Floor as real == d.r) }

  /** A built-in string that is not a digit: rejected without looking at its characters. */
  predicate BuiltinName(id: nat) { id < LAST_BUILTIN_STRING && (id < 0x30 || id > 0x39) }

  /** `text` gives the string of an id. For AVM1 a negative number passes, and what it is converted to is
      undefined in the original. */
  method ToUInt(name: Name, text: nat -> string, acceptStringFractions: bool, forAVM1: bool)
    returns (ok: bool, index: int, isNumber: bool)
    requires name.NameUInt? ==> 0 <= name.u <= UINT32_MAX
    ensures name.NameString? ==>
      if BuiltinName(name.id) then !ok else Right(text(name.id), acceptStringFractions, forAVM1, ok, index)
    ensures name.NameObject? ==> Right(name.text, acceptStringFractions, forAVM1, ok, index)
    ensures name.NameInt? ==> (ok <==> name.i >= 0) && (ok ==> index == name.i)
    ensures name.NameUInt? ==> ok && index == name.u
    ensures name.NameNumber? && !forAVM1 && ok ==>
      0 <= index <= UINT32_MAX && name.d == Whole(index)
    ensures name.NameNumber? && !forAVM1 && !ok ==>
      forall k :: 0 <= k <= UINT32_MAX ==> name.d != Whole(k)
    ensures name.NameNumber? && forAVM1 ==>
      (ok <==> name.d.NegInf? || exists k: int :: k <= UINT32_MAX && name.d == Whole(k))
    ensures name.NameNumber? && forAVM1 && ok && name.d.Finite? && name.d.r >= 0.0 ==> name.d == Whole(index)
  {
    isNumber := false;
    match name
    case NameString(id) =>
      if id < LAST_BUILTIN_STRING && (id < 0x30 || id > 0x39) { return false, 0, isNumber; }
      ok, index, isNumber := ParseIndex(text(id), acceptStringFractions, forAVM1);
    case NameObject(s) =>
      ok, index, isNumber := ParseIndex(s, acceptStringFractions, forAVM1);
    case NameInt(i) =>
      ok, index := i >= 0, i;
    case NameUInt(u) =>
      ok, index := true, u;
    case NameNumber(d) =>
      ok, index := false, 0;
      assert d.Finite? && IsIntegral(d) ==> d == Whole(d.r.Floor);
      if !IsIntegral(d) || d.PosInf? || (d.Finite? && d.r > UINT32_MAX as real) { return; }
      if !forAVM1 && (d.NegInf? || d.r < 0.0) { return; }
      ok := true;
      if d.NegInf? || d.r < 0.0 {
        index := *;
      } else {
        index := d.r.Floor;
      }
  }
}
