/** Positional numerals, most significant digit first: the number a digit string denotes and
    the shortest digit string of a number. */
module Numerals {
  function Pow(base: nat, n: nat): nat {
    if n == 0 then 1 else Pow(base, n - 1) * base
  }

  predicate Digits(s: seq<nat>, base: nat) {
    forall i :: 0 <= i < |s| ==> s[i] < base
  }

  predicate IsBytes(s: seq<nat>) {
    Digits(s, 256)
  }

  /** The number that the digits denote. */
  function Num(s: seq<nat>, base: nat): nat {
    if s == [] then 0 else Num(s[..|s| - 1], base) * base + s[|s| - 1]
  }

  /** The digits of a number, without leading zeros; none for 0. */
  function Numeral(n: nat, base: nat): (s: seq<nat>)
    requires base >= 2
    ensures Digits(s, base) && (s == [] <==> n == 0) && (s != [] ==> s[0] != 0)
    ensures Num(s, base) == n
    decreases n
  {
    if n == 0 then []
    else
      Smaller(n, base);
      var p := Numeral(n / base, base);
      assert (p + [n % base])[..|p|] == p;
      p + [n % base]
  }

  lemma Smaller(n: nat, base: nat)
    requires n > 0 && base >= 2
    ensures 0 <= n / base < n && n == n / base * base + n % base
  {
  }

  function Strip(s: seq<nat>): (t: seq<nat>)
    ensures t == [] || t[0] != 0
    ensures |t| <= |s| && t == s[|s| - |t|..] && forall i :: 0 <= i < |s| - |t| ==> s[i] == 0
  {
    if s == [] || s[0] != 0 then s else Strip(s[1..])
  }

  lemma {:induction false} PowSum(base: nat, m: nat, n: nat)
    ensures Pow(base, m + n) == Pow(base, m) * Pow(base, n)
  {
    if n > 0 {
      PowSum(base, m, n - 1);
      MulAssoc(Pow(base, m), Pow(base, n - 1), base);
    }
  }

  lemma MulAssoc(a: nat, b: nat, c: nat)
    ensures a * b * c == a * (b * c)
  {
  }

  lemma {:induction false} PowUp(base: nat, m: nat, n: nat)
    requires base > 0 && m <= n
    ensures 0 < Pow(base, m) <= Pow(base, n)
  {
    if m < n {
      PowUp(base, m, n - 1);
      assert Pow(base, n - 1) * base >= Pow(base, n - 1);
    } else if m > 0 {
      PowUp(base, m - 1, m - 1);
      assert Pow(base, m - 1) * base > 0;
    }
  }

  lemma {:induction false} NumBound(s: seq<nat>, base: nat)
    requires Digits(s, base) && base > 0
    ensures Num(s, base) < Pow(base, |s|)
  {
    if s != [] {
      var p := s[..|s| - 1];
      NumBound(p, base);
      assert Num(s, base) == Num(p, base) * base + s[|p|] && Pow(base, |s|) == Pow(base, |p|) * base;
      hide Num, Pow;
      BoundStep(Num(p, base), Pow(base, |p|), base, s[|p|]);
    }
  }

  lemma BoundStep(n: nat, m: nat, base: nat, d: nat)
    requires n < m && d < base
    ensures n * base + d < m * base
  {
    MulUp(n + 1, m, base);
    assert (n + 1) * base == n * base + base;
  }

  lemma MulUp(a: nat, b: nat, c: nat)
    requires a <= b
    ensures a * c <= b * c
  {
  }

  lemma MulLess(a: nat, b: nat, d: nat)
    requires a * d < b * d
    ensures a < b
  {
    if a >= b {
      MulUp(b, a, d);
    }
  }

  lemma {:induction false} NumSum(a: seq<nat>, b: seq<nat>, base: nat)
    ensures Num(a + b, base) == Num(a, base) * Pow(base, |b|) + Num(b, base)
  {
    if b == [] {
      assert a + b == a;
    } else {
      var p := b[..|b| - 1];
      NumSum(a, p, base);
      assert (a + b)[..|a + b| - 1] == a + p;
      assert Num(a + b, base) == Num(a + p, base) * base + b[|b| - 1];
      SumStep(Num(a, base), Pow(base, |p|), Num(p, base), base);
    }
  }

  lemma SumStep(a: nat, pow: nat, n: nat, base: nat)
    ensures (a * pow + n) * base == a * (pow * base) + n * base
  {
    MulAssoc(a, pow, base);
  }

  lemma {:induction false} NumZeros(s: seq<nat>, base: nat)
    requires forall i :: 0 <= i < |s| ==> s[i] == 0
    ensures Num(s, base) == 0
  {
    if s != [] {
      NumZeros(s[..|s| - 1], base);
    }
  }

  /** Leading zeros do not change the number. */
  lemma NumStrip(s: seq<nat>, base: nat)
    ensures Num(Strip(s), base) == Num(s, base)
  {
    hide Num, Strip, Pow;
    var t := Strip(s);
    var z := s[..|s| - |t|];
    assert s == z + t;
    NumSum(z, t, base);
    NumZeros(z, base);
  }

  /** A digit string without leading zeros is the numeral of its number. */
  lemma {:induction false} NumeralOfNum(s: seq<nat>, base: nat)
    requires base >= 2 && Digits(s, base) && (s == [] || s[0] != 0)
    ensures Numeral(Num(s, base), base) == s
  {
    if s != [] {
      var p, d := s[..|s| - 1], s[|s| - 1];
      NumeralOfNum(p, base);
      assert s == p + [d] && Num(s, base) == Num(p, base) * base + d;
      hide Num, Numeral;
      NumeralStep(Num(p, base), base, d);
    }
  }

  lemma NumeralStep(q: nat, base: nat, d: nat)
    requires base >= 2 && d < base && (q > 0 || d > 0)
    ensures Numeral(q * base + d, base) == Numeral(q, base) + [d]
  {
    DivMod(q, base, d);
    assert q * base + d > 0 by {
      if q > 0 {
        MulUp(1, q, base);
      }
    }
  }

  lemma DivMod(q: nat, base: nat, r: nat)
    requires r < base
    ensures (q * base + r) / base == q && (q * base + r) % base == r
  {
    var x := q * base + r;
    assert x == x / base * base + x % base;
    Quotients(x / base, q, base, r - x % base);
  }

  lemma Quotients(a: int, q: int, base: nat, d: int)
    requires a * base == q * base + d && -(base as int) < d < base
    ensures a == q
  {
    if a != q {
      FarApart(a - q, base);
    }
  }

  lemma FarApart(k: int, base: nat)
    requires k != 0
    ensures k * base >= base || k * base <= -(base as int)
  {
    if k > 0 {
      MulUp(1, k, base);
    } else {
      MulUp(1, -k, base);
    }
  }

  /** Stripping gives the numeral of the number a digit string denotes. */
  lemma StripIsNumeral(s: seq<nat>, base: nat)
    requires base >= 2 && Digits(s, base)
    ensures Numeral(Num(s, base), base) == Strip(s)
  {
    NumStrip(s, base);
    NumeralOfNum(Strip(s), base);
  }
}
