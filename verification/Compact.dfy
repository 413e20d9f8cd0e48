/** Compact targets (src/bignum.h:321-344): a byte count and the first three bytes of a big
    number's sign-and-magnitude byte form, most significant byte first. */
module Compact {
  import opened Numerals

  // ---------------------------------------------------------------- the byte form

  /** The magnitude's bytes, with a zero in front when the first one would look negative. */
  function Magnitude(x: nat): (b: seq<nat>)
    ensures Digits(b, 256) && Num(b, 256) == x && (x == 0 <==> b == []) && (b != [] ==> b[0] < 0x80)
  {
    var s := Numeral(x, 256);
    if s != [] && s[0] >= 0x80 then
      NumFrontZero(s);
      [0] + s
    else s
  }

  lemma NumFrontZero(s: seq<nat>)
    ensures Num([0] + s, 256) == Num(s, 256)
  {
    NumSum([0], s, 256);
    NumZeros([0], 256);
  }

  function ToMpi(x: int): seq<nat> {
    if x >= 0 then Magnitude(x)
    else
      var b := Magnitude(-x);
      [b[0] + 0x80] + b[1..]
  }

  function FromMpi(b: seq<nat>): int {
    if b == [] then 0
    else if b[0] >= 0x80 then -(Num([b[0] - 0x80] + b[1..], 256) as int)
    else Num(b, 256)
  }

  lemma MpiRoundTrip(x: int)
    ensures FromMpi(ToMpi(x)) == x
  {
    if x < 0 {
      var b := Magnitude(-x);
      var m := [b[0] + 0x80] + b[1..];
      assert [m[0] - 0x80] + m[1..] == b;
    }
  }

  // ---------------------------------------------------------------- compact form

  function ByteAt(b: seq<nat>, i: nat): nat {
    if i < |b| then b[i] else 0
  }

  /** The size in the top byte (only its low eight bits fit there), then up to three bytes. */
  method GetCompact(x: int) returns (nCompact: nat)
    ensures nCompact == CompactOf(x)
  {
    hide ToMpi;
    var vch := ToMpi(x);
    var nSize := |vch|;
    nCompact := nSize % 256 * 0x100_0000;
    if nSize >= 1 { nCompact := nCompact + vch[0] * 0x1_0000; }
    if nSize >= 2 { nCompact := nCompact + vch[1] * 0x100; }
    if nSize >= 3 { nCompact := nCompact + vch[2]; }
  }

  function CompactOf(x: int): nat {
    var b := ToMpi(x);
    |b| % 256 * 0x100_0000 + ByteAt(b, 0) * 0x1_0000 + ByteAt(b, 1) * 0x100 + ByteAt(b, 2)
  }

  method SetCompact(nCompact: nat) returns (x: int)
    requires nCompact < 0x1_0000_0000
    ensures x == FromCompact(nCompact)
  {
    var nSize := nCompact / 0x100_0000;
    var vch := seq(nSize, _ => 0);
    if nSize >= 1 { vch := vch[0 := nCompact / 0x1_0000 % 256]; }
    if nSize >= 2 { vch := vch[1 := nCompact / 0x100 % 256]; }
    if nSize >= 3 { vch := vch[2 := nCompact % 256]; }
    assert vch == CompactBytes(nCompact);
    hide FromMpi;
    x := FromMpi(vch);
  }

  function CompactBytes(nCompact: nat): (b: seq<nat>)
    ensures |b| == nCompact / 0x100_0000
  {
    seq(nCompact / 0x100_0000, i =>
      if i == 0 then nCompact / 0x1_0000 % 256 else if i == 1 then nCompact / 0x100 % 256
      else if i == 2 then nCompact % 256 else 0)
  }

  function FromCompact(nCompact: nat): int {
    FromMpi(CompactBytes(nCompact))
  }

  lemma SmallNum(a: nat, b: nat, c: nat)
    ensures Num([a], 256) == a && Num([a, b], 256) == a * 256 + b && Num([a, b, c], 256) == a * 0x1_0000 + b * 256 + c
  {
    assert [a][..0] == [] && [a, b][..1] == [a] && [a, b, c][..2] == [a, b];
    assert Num([a], 256) == Num([], 256) * 256 + a;
    assert Num([a, b], 256) == Num([a], 256) * 256 + b;
    assert Num([a, b, c], 256) == Num([a, b], 256) * 256 + c;
  }

  /** The compact forms of a number with the magnitude bytes b, and of its negative. */
  lemma CompactOfBytes(x: nat, b: seq<nat>)
    requires x > 0 && Magnitude(x) == b && 1 <= |b| <= 3
    ensures CompactOf(x) == |b| * 0x100_0000 + ByteAt(b, 0) * 0x1_0000 + ByteAt(b, 1) * 0x100 + ByteAt(b, 2)
    ensures CompactOf(0 - x as int) == CompactOf(x) + 0x80_0000
  {
    hide Magnitude, Num, Digits;
    assert ToMpi(x) == b;
    assert ToMpi(0 - x as int) == [b[0] + 0x80] + b[1..];
    hide ToMpi;
  }

  lemma MagnitudeOf(b: seq<nat>, x: nat)
    requires Digits(b, 256) && b != [] && b[0] < 0x80 && (b[0] == 0 ==> |b| >= 2 && b[1] >= 0x80) && Num(b, 256) == x
    ensures Magnitude(x) == b
  {
    MagnitudeUnique(b);
  }

  /** Some compact forms written out, a sign bit and a byte added to keep it clear included. */
  lemma CompactVectors()
    ensures CompactOf(0x12) == 0x0112_0000 && CompactOf(0x80) == 0x0200_8000
    ensures CompactOf(0x1234) == 0x0212_3400 && CompactOf(0x12_3456) == 0x0312_3456
    ensures CompactOf(-0x12) == 0x0192_0000
  {
    hide CompactOf, Num, Magnitude;
    SmallNum(0x12, 0x34, 0x56);
    SmallNum(0, 0x80, 0);
    MagnitudeOf([0x12], 0x12);
    MagnitudeOf([0, 0x80], 0x80);
    MagnitudeOf([0x12, 0x34], 0x1234);
    MagnitudeOf([0x12, 0x34, 0x56], 0x12_3456);
    CompactOfBytes(0x12, [0x12]);
    CompactOfBytes(0x80, [0, 0x80]);
    CompactOfBytes(0x1234, [0x12, 0x34]);
    CompactOfBytes(0x12_3456, [0x12, 0x34, 0x56]);
  }

  // ---------------------------------------------------------------- truncation

  /** x without its remainder by p. */
  function Cut(x: nat, p: nat): (c: nat)
    requires p > 0
    ensures c <= x < c + p
  {
    x - x % p
  }

  lemma CutIs(x: nat, p: nat)
    requires p > 0
    ensures Cut(x, p) == x / p * p
  {
    assert x == x / p * p + x % p;
  }

  function Place(n: nat): (p: nat)
    ensures p > 0
  {
    PowUp(256, 0, n);
    Pow(256, n)
  }

  /** x cut after its first three bytes. */
  function Truncated(x: nat): nat {
    var n := |Magnitude(x)|;
    if n <= 3 then x else Cut(x, Place(n - 3))
  }

  lemma Fields(n: nat, a: nat, b: nat, c: nat)
    requires a < 256 && b < 256 && c < 256
    ensures
      var v := n * 0x100_0000 + a * 0x1_0000 + b * 0x100 + c;
      v / 0x100_0000 == n && v / 0x1_0000 % 256 == a && v / 0x100 % 256 == b && v % 256 == c
  {
    DivMod(n, 0x100_0000, a * 0x1_0000 + b * 0x100 + c);
    DivMod(n * 256 + a, 0x1_0000, b * 0x100 + c);
    DivMod(n, 256, a);
    DivMod(n * 0x1_0000 + a * 256 + b, 0x100, c);
    DivMod(n * 256 + a, 256, b);
  }

  /** The bytes that come back are the first three, then zeros. */
  lemma BytesBack(x: nat)
    requires |Magnitude(x)| < 256
    ensures
      var b := Magnitude(x);
      CompactBytes(CompactOf(x)) == if |b| <= 3 then b else b[..3] + seq(|b| - 3, _ => 0)
  {
    hide Magnitude;
    var b := Magnitude(x);
    Fields(|b|, ByteAt(b, 0), ByteAt(b, 1), ByteAt(b, 2));
  }

  lemma HeadAndTail(b: seq<nat>)
    requires |b| > 3 && Digits(b, 256)
    ensures
      var p := Pow(256, |b| - 3);
      && p > 0 && Num(b, 256) / p == Num(b[..3], 256) && Num(b, 256) % p == Num(b[3..], 256)
      && Num(b[..3] + seq(|b| - 3, _ => 0), 256) == Num(b[..3], 256) * p
  {
    hide Num, Pow;
    var p := Pow(256, |b| - 3);
    PowUp(256, 0, |b| - 3);
    assert b == b[..3] + b[3..];
    NumSum(b[..3], b[3..], 256);
    NumBound(b[3..], 256);
    DivMod(Num(b[..3], 256), p, Num(b[3..], 256));
    var z := seq(|b| - 3, _ => 0);
    NumSum(b[..3], z, 256);
    NumZeros(z, 256);
  }

  /** Going through the compact form cuts a number after its first three bytes. */
  lemma CompactTruncates(x: nat)
    requires |Magnitude(x)| < 256
    ensures FromCompact(CompactOf(x)) == Truncated(x)
  {
    hide Magnitude, CompactOf, CompactBytes, Num, Pow;
    var b := Magnitude(x);
    BytesBack(x);
    if |b| > 3 {
      HeadAndTail(b);
      CutIs(x, Place(|b| - 3));
    }
  }

  // ---------------------------------------------------------------- how much is cut

  /** A number between the least and the greatest one of its size. */
  lemma SizeBounds(x: nat)
    requires x > 0
    ensures
      var n := |Magnitude(x)|;
      n >= 1 && x < 128 * Pow(256, n - 1) && (n >= 2 ==> x >= 128 * Pow(256, n - 2))
  {
    var b := Magnitude(x);
    assert |b| >= 2 && b[0] == 0 ==> b[1] >= 0x80;
    hide Magnitude, Pow, Num;
    Below(b);
    if |b| >= 2 {
      AtLeast(b);
    }
  }

  lemma Leading(b: seq<nat>)
    requires b != [] && Digits(b, 256)
    ensures Num(b, 256) == b[0] * Pow(256, |b| - 1) + Num(b[1..], 256)
    ensures Num(b[1..], 256) < Pow(256, |b| - 1)
  {
    hide Num, Pow;
    assert b == [b[0]] + b[1..];
    NumSum([b[0]], b[1..], 256);
    OneDigit(b[0]);
    NumBound(b[1..], 256);
  }

  lemma Below(b: seq<nat>)
    requires b != [] && Digits(b, 256) && b[0] < 128
    ensures Num(b, 256) < 128 * Pow(256, |b| - 1)
  {
    hide Num, Pow;
    Leading(b);
    var p := Pow(256, |b| - 1);
    MulUp(b[0] + 1, 128, p);
    assert (b[0] + 1) * p == b[0] * p + p;
  }

  lemma AtLeast(b: seq<nat>)
    requires |b| >= 2 && Digits(b, 256) && (b[0] == 0 ==> b[1] >= 128)
    ensures Num(b, 256) >= 128 * Pow(256, |b| - 2)
  {
    hide Num, Pow;
    Leading(b);
    var p := Pow(256, |b| - 2);
    if b[0] == 0 {
      Leading(b[1..]);
      MulUp(128, b[1], p);
    } else {
      PowSum(256, |b| - 2, 1);
      OnePow();
      MulUp(1, b[0], Pow(256, |b| - 1));
    }
  }

  lemma OneDigit(d: nat)
    ensures Num([d], 256) == d
  {
    assert [d][..0] == [];
  }

  lemma OnePow()
    ensures Pow(256, 1) == 256 && Pow(256, 0) == 1
  {
  }

  /** The cut loses less than one part in 2^15, and nothing of numbers up to three bytes. */
  lemma TruncationError(x: nat)
    requires x > 0
    ensures 0 < Truncated(x) <= x && (x - Truncated(x)) * 0x8000 < x
  {
    var n := |Magnitude(x)|;
    SizeBounds(x);
    if n > 3 {
      hide Magnitude, Pow;
      PowSum(256, n - 3, 1);
      OnePow();
      assert x >= 0x8000 * Place(n - 3);
    }
  }

  /** A byte string that starts as a shortest positive form does is that form. */
  lemma MagnitudeUnique(b: seq<nat>)
    requires Digits(b, 256) && b != [] && b[0] < 0x80
    requires if b[0] == 0 then |b| >= 2 && b[1] >= 0x80 else true
    ensures Magnitude(Num(b, 256)) == b
  {
    if b[0] == 0 {
      assert b == [0] + b[1..];
      NumFrontZero(b[1..]);
      NumeralOfNum(b[1..], 256);
    } else {
      NumeralOfNum(b, 256);
    }
  }

  lemma HeadKeepsForm(b: seq<nat>)
    requires |b| > 3 && Digits(b, 256) && b[0] < 0x80 && (b[0] == 0 ==> b[1] >= 0x80)
    ensures Magnitude(Num(b[..3], 256) * Pow(256, |b| - 3)) == b[..3] + seq(|b| - 3, _ => 0)
  {
    hide Magnitude, Num, Pow;
    HeadAndTail(b);
    MagnitudeUnique(b[..3] + seq(|b| - 3, _ => 0));
  }

  lemma SameCompact(x: nat, y: nat)
    requires |Magnitude(x)| == |Magnitude(y)| >= 3 && Magnitude(x)[..3] == Magnitude(y)[..3]
    ensures CompactOf(x) == CompactOf(y)
  {
    hide Magnitude;
    var a, b := Magnitude(x), Magnitude(y);
    assert a[0] == a[..3][0] && a[1] == a[..3][1] && a[2] == a[..3][2];
    assert b[0] == b[..3][0] && b[1] == b[..3][1] && b[2] == b[..3][2];
  }

  lemma TruncatedIs(x: nat)
    requires |Magnitude(x)| > 3
    ensures
      var b := Magnitude(x);
      b[0] < 0x80 && (b[0] == 0 ==> b[1] >= 0x80) && Truncated(x) == Num(b[..3], 256) * Pow(256, |b| - 3)
  {
    var b := Magnitude(x);
    assert b[0] == 0 ==> b[1] >= 0x80;
    hide Magnitude, Num, Pow;
    HeadAndTail(b);
    CutIs(x, Place(|b| - 3));
  }

  /** What was cut once keeps its size and its compact form. */
  lemma TruncatedCanonical(x: nat)
    requires x > 0
    ensures |Magnitude(Truncated(x))| == |Magnitude(x)| && CompactOf(Truncated(x)) == CompactOf(x)
  {
    hide Magnitude, Num, Pow, CompactOf, Truncated;
    var b := Magnitude(x);
    if |b| > 3 {
      TruncatedIs(x);
      HeadKeepsForm(b);
      SameCompact(x, Truncated(x));
    } else {
      ShortUncut(x);
    }
  }

  lemma ShortUncut(x: nat)
    requires |Magnitude(x)| <= 3
    ensures Truncated(x) == x
  {
  }

  /** Cutting keeps the order. */
  lemma TruncatedMonotone(x: nat, y: nat)
    requires 0 < x <= y
    ensures Truncated(x) <= Truncated(y) && |Magnitude(x)| <= |Magnitude(y)|
  {
    hide Magnitude, Pow;
    var n, m := |Magnitude(x)|, |Magnitude(y)|;
    SizeBounds(x);
    SizeBounds(y);
    TruncationError(x);
    TruncationError(y);
    if n > m {
      PowUp(256, m - 1, n - 2);
    } else if n < m {
      PowUp(256, n - 1, m - 2);
      if m > 3 {
        AtLeastHead(y, m);
      }
    } else if n > 3 {
      CutUp(x, y, Place(n - 3));
    }
  }

  lemma AtLeastHead(y: nat, m: nat)
    requires m == |Magnitude(y)| > 3 && y >= 128 * Pow(256, m - 2)
    ensures Truncated(y) >= 128 * Pow(256, m - 2)
  {
    hide Magnitude, Pow;
    var p := Place(m - 3);
    PowSum(256, m - 3, 1);
    OnePow();
    CutUp(0x8000 * p, y, p);
    CutIs(0x8000 * p, p);
    DivMod(0x8000, p, 0);
  }

  lemma CutUp(x: nat, y: nat, p: nat)
    requires p > 0 && x <= y
    ensures Cut(x, p) <= Cut(y, p)
  {
    assert x / p * p < (y / p + 1) * p by {
      assert x == x / p * p + x % p && y == y / p * p + y % p;
      assert (y / p + 1) * p == y / p * p + p;
    }
    MulLess(x / p, y / p + 1, p);
    MulUp(x / p, y / p, p);
    CutIs(x, p);
    CutIs(y, p);
  }
}
