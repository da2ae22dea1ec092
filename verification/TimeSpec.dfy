/** Points and spans of time as seconds and nanoseconds. */
module TimeSpec {

  const NS_PER_SEC: nat := 1000000000
  const TWO_64: nat := 0x1_0000_0000_0000_0000

  datatype TimeSpec = TimeSpec(sec: nat, nsec: nat) {

    predicate Normal() { nsec < NS_PER_SEC }

    function Ns(): nat { sec * NS_PER_SEC + nsec }

    predicate Less(other: TimeSpec) { sec < other.sec || (sec == other.sec && nsec < other.nsec) }

    predicate AtLeast(other: TimeSpec) { sec > other.sec || (sec == other.sec && nsec >= other.nsec) }

    function Plus(other: TimeSpec): (r: TimeSpec)
      requires Normal() && other.Normal()
      ensures r.Normal() && r.Ns() == Ns() + other.Ns()
    {
      var nsecs := nsec + other.nsec;
      var addSec := nsecs >= NS_PER_SEC;
      Make(sec + other.sec + (if addSec then 1 else 0), nsecs - if addSec then NS_PER_SEC else 0)
    }

    /** Unsigned: below zero the seconds wrap around. */
    function Minus(other: TimeSpec): (r: TimeSpec)
      requires Normal() && other.Normal()
      ensures r.Normal()
      ensures Ns() >= other.Ns() ==> r.Ns() == Ns() - other.Ns()
      ensures Ns() < other.Ns() && other.sec < TWO_64 ==> r.Ns() == Ns() - other.Ns() + TWO_64 * NS_PER_SEC
    {
      var negNs := nsec < other.nsec;
      var secs := sec - other.sec - if negNs then 1 else 0;
      Make(if secs >= 0 then secs else secs % TWO_64, (if negNs then nsec + NS_PER_SEC else nsec) - other.nsec)
    }

    function Times(k: nat): (r: TimeSpec)
      requires Normal()
      ensures r.Normal() && r.Ns() == Ns() * k
    {
      var totalNsec := nsec * k;
      MulIsNs(sec, nsec, k);
      Make(sec * k + totalNsec / NS_PER_SEC, totalNsec % NS_PER_SEC)
    }

    function Div(k: nat): TimeSpec
      requires k > 0
    {
      var ret := Make(sec / k, nsec / k);
      var extra := Make(sec % k, nsec % k);
      TimeSpec(ret.sec, ret.nsec + extra.Ns() / k)
    }

    function AbsDiff(other: TimeSpec): (r: TimeSpec)
      requires Normal() && other.Normal()
      ensures r.Normal() && r.Ns() == if Ns() >= other.Ns() then Ns() - other.Ns() else other.Ns() - Ns()
    {
      OrderIsNs(this, other);
      if AtLeast(other) then Minus(other) else other.Minus(this)
    }

    function SaturatingSub(other: TimeSpec): (r: TimeSpec)
      requires Normal() && other.Normal()
      ensures r.Normal() && r.Ns() == if Ns() >= other.Ns() then Ns() - other.Ns() else 0
    {
      OrderIsNs(this, other);
      if AtLeast(other) then Minus(other) else TimeSpec(0, 0)
    }
  }

  const ZERO := TimeSpec(0, 0)

  /** The normalizing constructor. */
  function Make(secs: nat, nsecs: nat): (r: TimeSpec)
    ensures r.Normal() && r.Ns() == secs * NS_PER_SEC + nsecs
  {
    TimeSpec(secs + nsecs / NS_PER_SEC, nsecs % NS_PER_SEC)
  }

  lemma OrderIsNs(a: TimeSpec, b: TimeSpec)
    requires a.Normal() && b.Normal()
    ensures a.AtLeast(b) <==> a.Ns() >= b.Ns()
    ensures a.Less(b) <==> a.Ns() < b.Ns()
    ensures a == b <==> a.Ns() == b.Ns()
  {
  }

  lemma MulIsNs(sec: nat, nsec: nat, k: nat)
    ensures (sec * k) * NS_PER_SEC + nsec * k == (sec * NS_PER_SEC + nsec) * k
  {
  }

  lemma Quotient(x: nat, k: nat)
    requires k > 0
    ensures x == k * (x / k) + x % k && 0 <= x % k < k
  {
  }

  lemma Parts(x: nat, k: nat) returns (q: nat, r: nat)
    requires k > 0
    ensures q == x / k && r == x % k && x == k * q + r && r < k
  {
    Quotient(x, k);
    q, r := x / k, x % k;
  }

  lemma LessOfProducts(a: nat, b: nat, k: nat)
    requires a * k < b * k
    ensures a < b
  {
  }

  lemma PartsUnique(a: nat, b: nat, q: nat, r: nat, k: nat)
    requires a * k + b == q * k + r && b < k && r < k
    ensures a == q && b == r
  {
    AtMostProduct(a, a, k);
    AtMostProduct(q, q, k);
    LessOfProducts(a, q + 1, k);
    LessOfProducts(q, a + 1, k);
  }

  lemma DivUnique(x: nat, k: nat, q: nat, r: nat)
    requires k > 0 && x == q * k + r && r < k
    ensures x / k == q && x % k == r
  {
    Quotient(x, k);
    PartsUnique(x / k, x % k, q, r, k);
  }

  lemma Distribute(s: nat, t: nat, n: nat, e: nat, k: nat, one: nat)
    ensures (s * k + t) * one + n * k + e * k == (s * one + n + e) * k + t * one
  {
  }

  lemma AtMostProduct(a: nat, b: nat, k: nat)
    requires a <= b
    ensures a * k <= b * k && (b + 1) * k == b * k + k
  {
  }

  /** With sec == s * k + t, nsec == n * k + m and what is left over, t * one + m == e * k + f. */
  lemma DivParts(s: nat, t: nat, n: nat, m: nat, e: nat, f: nat, k: nat, one: nat)
    requires t < k && n * k + m < one && t * one + m == e * k + f && f < k
    ensures (s * k + t) * one + n * k + m == (s * one + n + e) * k + f
    ensures n + e < one
  {
    Distribute(s, t, n, e, k, one);
    AtMostProduct(t, k - 1, one);
    LessOfProducts(n + e, one, k);
  }

  /** Dividing seconds and nanoseconds apart and then what is left over is dividing the nanoseconds,
      rounding down; the sum of nanoseconds needs no normalizing. */
  lemma DivIsNs(a: TimeSpec, k: nat)
    requires a.Normal() && k > 0
    ensures a.Div(k).Normal() && a.Div(k).Ns() == a.Ns() / k
  {
    var s, t := Parts(a.sec, k);
    var n, m := Parts(a.nsec, k);
    var e, f := Parts(t * NS_PER_SEC + m, k);
    DivWhole(a.sec, a.nsec, s, t, n, m, e, f, k);
    assert Make(s, n) == TimeSpec(s, n) && Make(t, m) == TimeSpec(t, m);
  }

  lemma DivWhole(sec: nat, nsec: nat, s: nat, t: nat, n: nat, m: nat, e: nat, f: nat, k: nat)
    requires sec == k * s + t && t < k && nsec == k * n + m && m < k && nsec < NS_PER_SEC
    requires t * NS_PER_SEC + m == k * e + f && f < k
    ensures s * NS_PER_SEC + n + e == (sec * NS_PER_SEC + nsec) / k && n + e < NS_PER_SEC && m < NS_PER_SEC && n < NS_PER_SEC
  {
    AtMostProduct(0, n, k);
    DivParts(s, t, n, m, e, f, k, NS_PER_SEC);
    DivUnique(sec * NS_PER_SEC + nsec, k, s * NS_PER_SEC + n + e, f);
  }
}
