/** Positional numerals: big-endian digit sequences, their values, and the carry
    pass that Base58 runs in place over a growing digit vector. */
module Radix {

  /** The value of a big-endian digit sequence. */
  ghost function Value(b: nat, s: seq<nat>): nat {
    if s == [] then 0 else Value(b, s[..|s| - 1]) * b + s[|s| - 1]
  }

  ghost predicate InRange(b: nat, s: seq<nat>) {
    forall i :: 0 <= i < |s| ==> s[i] < b
  }

  /** A numeral without a leading zero; zero itself is the empty numeral. */
  ghost predicate Canonical(b: nat, s: seq<nat>) {
    InRange(b, s) && (s != [] ==> s[0] != 0)
  }

  /** The canonical numeral of n. */
  function Digits(b: nat, n: nat): (s: seq<nat>)
    requires b >= 2
    decreases n
  {
    if n == 0 then [] else
      assert n / b < n by { DivLess(n, b); }
      Digits(b, n / b) + [n % b]
  }

  lemma DivLess(n: nat, b: nat)
    requires b >= 2 && n > 0
    ensures n / b < n
  {
    if n / b >= n {
      assert n == (n / b) * b + n % b;
      assert (n / b) * b >= n * 2 by { MulGrows(n / b, b, n); }
    }
  }

  lemma MulGrows(x: nat, b: nat, n: nat)
    requires x >= n && b >= 2
    ensures x * b >= n * 2
  {
    assert x * b == x * 2 + x * (b - 2);
  }

  /** Multiply by m and add c, propagating the carry from the last digit; whatever
      carry is left over grows the numeral at the front. */
  function MulAdd(b: nat, m: nat, s: seq<nat>, c: nat): (t: seq<nat>)
    requires b >= 2
  {
    if s == [] then Digits(b, c)
    else
      var carry := s[|s| - 1] * m + c;
      MulAdd(b, m, s[..|s| - 1], carry / b) + [carry % b]
  }

  lemma ValueAppend(b: nat, s: seq<nat>, d: nat)
    ensures Value(b, s + [d]) == Value(b, s) * b + d
  {
    assert (s + [d])[..|s|] == s;
  }

  lemma DivMod(n: nat, b: nat)
    requires b >= 1
    ensures (n / b) * b + n % b == n && n % b < b
  {
  }

  lemma {:induction false} DigitsCanonical(b: nat, n: nat)
    requires b >= 2
    ensures Canonical(b, Digits(b, n)) && Value(b, Digits(b, n)) == n
    decreases n
  {
    if n != 0 {
      DivLess(n, b);
      DigitsCanonical(b, n / b);
      ValueAppend(b, Digits(b, n / b), n % b);
      DivMod(n, b);
      if n / b == 0 {
        assert n % b == n;
      }
    }
  }

  /** Canonical numerals are determined by their value. */
  lemma {:induction false} CanonicalUnique(b: nat, s: seq<nat>)
    requires b >= 2 && Canonical(b, s)
    ensures Digits(b, Value(b, s)) == s
    decreases |s|
  {
    if s != [] {
      var front, d := s[..|s| - 1], s[|s| - 1];
      CanonicalUnique(b, front);
      var v := Value(b, front);
      QuotientOf(b, v, d);
      if front == [] {
        assert d == s[0] != 0;
      } else {
        CanonicalPositive(b, front);
        assert v * b > 0 by { MulGrows(b, 2, 1); MulPositive(v, b); }
      }
      assert s == front + [d];
    }
  }

  lemma MulPositive(x: nat, y: nat)
    requires x > 0 && y > 0
    ensures x * y > 0
  {
  }

  lemma QuotientOf(b: nat, q: nat, d: nat)
    requires d < b
    ensures (q * b + d) / b == q && (q * b + d) % b == d
  {
    var n := q * b + d;
    DivMod(n, b);
    var q', r' := n / b, n % b;
    assert (q - q') * b == r' - d;
    if q != q' {
      var gap := if q > q' then q - q' else q' - q;
      MulAtLeast(gap, b);
      assert false;
    }
  }

  lemma MulAtLeast(k: nat, b: nat)
    requires k >= 1
    ensures k * b >= b
  {
    assert k * b == b + (k - 1) * b;
  }

  lemma {:induction false} CanonicalPositive(b: nat, s: seq<nat>)
    requires b >= 2 && Canonical(b, s) && s != []
    ensures Value(b, s) > 0
    decreases |s|
  {
    var front, d := s[..|s| - 1], s[|s| - 1];
    if front != [] {
      CanonicalPositive(b, front);
      MulPositive(Value(b, front), b);
    }
  }

  /** The carry pass computes value * m + c, and keeps the digits in range. */
  lemma {:induction false} MulAddValue(b: nat, m: nat, s: seq<nat>, c: nat)
    requires b >= 2
    ensures Value(b, MulAdd(b, m, s, c)) == Value(b, s) * m + c
    ensures InRange(b, s) ==> InRange(b, MulAdd(b, m, s, c))
    decreases |s|
  {
    if s == [] {
      DigitsCanonical(b, c);
    } else {
      var front, d := s[..|s| - 1], s[|s| - 1];
      var carry := d * m + c;
      var q, r := carry / b, carry % b;
      DivMod(carry, b);
      MulAddValue(b, m, front, q);
      var lower := MulAdd(b, m, front, q);
      assert MulAdd(b, m, s, c) == lower + [r];
      ValueAppend(b, lower, r);
      CarrySum(b, m, Value(b, front), d, c, q, r, Value(b, lower));
      ValueSplit(b, s);
    }
  }

  lemma ValueSplit(b: nat, s: seq<nat>)
    requires s != []
    ensures Value(b, s) == Value(b, s[..|s| - 1]) * b + s[|s| - 1]
  {
  }

  lemma CarrySum(b: nat, m: nat, v: nat, d: nat, c: nat, q: nat, r: nat, x: nat)
    requires q * b + r == d * m + c && x == v * m + q
    ensures x * b + r == (v * b + d) * m + c
  {
    calc {
      x * b + r;
      == { DistributeRight(v * m, q, b); }
      v * m * b + (q * b + r);
      ==
      v * m * b + (d * m + c);
      == { SwapFactors(v, m, b); DistributeRight(v * b, d, m); }
      (v * b + d) * m + c;
    }
  }

  lemma DistributeRight(x: nat, y: nat, z: nat)
    ensures (x + y) * z == x * z + y * z
  {
  }

  lemma SwapFactors(x: nat, y: nat, z: nat)
    ensures x * y * z == x * z * y
  {
    assert x * y * z == x * (y * z) == x * (z * y) == x * z * y;
  }

  lemma {:induction false} MulAddCanonical(b: nat, m: nat, s: seq<nat>, c: nat)
    requires b >= 2 && m >= 1 && Canonical(b, s)
    ensures MulAdd(b, m, s, c) == Digits(b, Value(b, s) * m + c)
  {
    MulAddValue(b, m, s, c);
    MulAddLeads(b, m, s, c);
    CanonicalUnique(b, MulAdd(b, m, s, c));
  }

  lemma {:induction false} MulAddLeads(b: nat, m: nat, s: seq<nat>, c: nat)
    requires b >= 2 && m >= 1 && Canonical(b, s)
    ensures Canonical(b, MulAdd(b, m, s, c))
    decreases |s|
  {
    if s == [] {
      DigitsCanonical(b, c);
    } else {
      var front, d := s[..|s| - 1], s[|s| - 1];
      var carry := d * m + c;
      MulAddValue(b, m, s, c);
      if front == [] {
        MulPositive(d, m);
        DigitsCanonical(b, carry / b);
        if carry / b == 0 {
          DivMod(carry, b);
        }
      } else {
        MulAddLeads(b, m, front, carry / b);
        MulAddValue(b, m, front, carry / b);
        CanonicalPositive(b, front);
        MulPositive(Value(b, front), m);
        assert MulAdd(b, m, front, carry / b) != [] by {
          assert Value(b, MulAdd(b, m, front, carry / b)) > 0;
        }
      }
    }
  }

  /** How many zero digits lead the sequence. */
  function LeadingZeros(s: seq<nat>): (z: nat)
    ensures z <= |s|
    ensures forall i :: 0 <= i < z ==> s[i] == 0
    ensures z < |s| ==> s[z] != 0
  {
    if s == [] || s[0] != 0 then 0 else 1 + LeadingZeros(s[1..])
  }

  function Zeros(n: nat): (s: seq<nat>)
    ensures |s| == n && forall i :: 0 <= i < n ==> s[i] == 0
  {
    seq(n, _ => 0)
  }

  lemma {:induction false} ValueOfZeros(b: nat, n: nat)
    ensures Value(b, Zeros(n)) == 0
  {
    if n > 0 {
      assert Zeros(n)[..n - 1] == Zeros(n - 1);
      ValueOfZeros(b, n - 1);
    }
  }

  lemma {:induction false} ValueSkipsZeros(b: nat, n: nat, s: seq<nat>)
    ensures Value(b, Zeros(n) + s) == Value(b, s)
    decreases |s|
  {
    if s == [] {
      assert Zeros(n) + s == Zeros(n);
      ValueOfZeros(b, n);
    } else {
      ValueSkipsZeros(b, n, s[..|s| - 1]);
      assert (Zeros(n) + s)[..n + |s| - 1] == Zeros(n) + s[..|s| - 1];
    }
  }

  lemma LeadingZerosUnique(z: nat, s: seq<nat>)
    requires s != [] ==> s[0] != 0
    ensures LeadingZeros(Zeros(z) + s) == z
  {
    var all := Zeros(z) + s;
    var n := LeadingZeros(all);
    assert forall i :: 0 <= i < z ==> all[i] == 0;
    assert all[z..] == s;
    assert s != [] ==> all[z] == s[0];
  }

  /** Radix conversion that keeps every leading zero digit, one for one. */
  ghost function Convert(a: nat, b: nat, s: seq<nat>): seq<nat>
    requires b >= 2
  {
    Zeros(LeadingZeros(s)) + Digits(b, Value(a, s))
  }

  lemma SplitZeros(b: nat, s: seq<nat>)
    requires InRange(b, s)
    ensures var z := LeadingZeros(s);
            s == Zeros(z) + s[z..] && Canonical(b, s[z..]) && Value(b, s) == Value(b, s[z..])
  {
    var z := LeadingZeros(s);
    assert s == Zeros(z) + s[z..];
    ValueSkipsZeros(b, z, s[z..]);
  }

  /** Conversion there and back is the identity, so it is a bijection between the
      digit sequences of the two radices. */
  lemma ConvertInverse(a: nat, b: nat, s: seq<nat>)
    requires a >= 2 && b >= 2 && InRange(a, s)
    ensures InRange(b, Convert(a, b, s))
    ensures Convert(b, a, Convert(a, b, s)) == s
  {
    var z := LeadingZeros(s);
    SplitZeros(a, s);
    var n := Value(a, s);
    DigitsCanonical(b, n);
    LeadingZerosUnique(z, Digits(b, n));
    ValueSkipsZeros(b, z, Digits(b, n));
    CanonicalUnique(a, s[z..]);
  }
}
