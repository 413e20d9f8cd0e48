/** Base58 text (src/base58.cpp): the encoder's fixed digit buffer, the live decoder, and the
    checksummed form over an opaque hash. */
module Base58 {
  import opened Collections
  import opened Numerals

  // ---------------------------------------------------------------- the alphabet

  const NINE: string := "123456789"
  const UPPER_A: string := "ABCDEFGH"
  const UPPER_J: string := "JKLMN"
  const UPPER_P: string := "PQRSTUVWXYZ"
  const LOWER_A: string := "abcdefghijk"
  const LOWER_M: string := "mnopqrstuvwxyz"

  /** All alphanumeric characters except 0, I, O and l. */
  const ALPHABET: string := NINE + UPPER_A + UPPER_J + UPPER_P + LOWER_A + LOWER_M

  predicate Run(s: string, c: char, n: nat) {
    |s| == n && forall i :: 0 <= i < n ==> s[i] as int == c as int + i
  }

  lemma Runs()
    ensures Run(NINE, '1', 9) && Run(UPPER_A, 'A', 8) && Run(UPPER_J, 'J', 5)
    ensures Run(UPPER_P, 'P', 11) && Run(LOWER_A, 'a', 11) && Run(LOWER_M, 'm', 14)
  {
  }

  function Code(d: nat): int {
    if d < 9 then '1' as int + d
    else if d < 17 then 'A' as int + d - 9
    else if d < 22 then 'J' as int + d - 17
    else if d < 33 then 'P' as int + d - 22
    else if d < 44 then 'a' as int + d - 33
    else 'm' as int + d - 44
  }

  lemma AlphabetIs()
    ensures |ALPHABET| == 58 && forall d :: 0 <= d < 58 ==> ALPHABET[d] as int == Code(d)
  {
    Runs();
    hide NINE, UPPER_A, UPPER_J, UPPER_P, LOWER_A, LOWER_M;
  }

  /** The position of a character in the alphabet, as strchr finds it. */
  function DigitOf(c: char): Option<nat> {
    FindFrom(ALPHABET, c, 0)
  }

  function FindFrom(s: string, c: char, i: nat): (r: Option<nat>)
    requires i <= |s|
    ensures r.Some? ==> i <= r.value < |s| && s[r.value] == c
    ensures r.None? ==> forall j :: i <= j < |s| ==> s[j] != c
    decreases |s| - i
  {
    if i == |s| then None else if s[i] == c then Some(i) else FindFrom(s, c, i + 1)
  }

  lemma DigitOfChar(d: nat)
    requires d < 58
    ensures |ALPHABET| == 58 && DigitOf(ALPHABET[d]) == Some(d)
  {
    AlphabetIs();
    hide ALPHABET;
  }

  lemma DigitBound(c: char)
    ensures DigitOf(c).Some? ==> DigitOf(c).value < 58 && |ALPHABET| == 58 && ALPHABET[DigitOf(c).value] == c
  {
    AlphabetIs();
  }

  predicate IsSpace(c: char) {
    c == ' ' || ('\t' <= c <= '\r')
  }

  lemma SpaceCodes(c: char)
    ensures IsSpace(c) <==> c as int in {9, 10, 11, 12, 13, 32}
  {
  }

  lemma NoSpaceInAlphabet(c: char)
    ensures DigitOf(c).Some? ==> !IsSpace(c) && c != '\0'
    ensures DigitOf(c) == Some(0) <==> c == '1'
  {
    DigitBound(c);
    DigitOfChar(0);
    AlphabetIs();
    hide ALPHABET, DigitOf;
  }

  // ---------------------------------------------------------------- the digit buffer

  /** Eight bytes need eleven digits: 58^11 >= 256^8. */
  lemma EightBytes()
    ensures Pow(256, 8) <= Pow(58, 11)
  {
    assert Pow(256, 4) == 0x1_0000_0000;
    PowSum(256, 4, 4);
    assert Pow(58, 4) == 11316496;
    assert Pow(58, 3) == 195112;
    PowSum(58, 4, 4);
    PowSum(58, 8, 3);
  }

  lemma FewBytes(r: nat)
    requires r < 8
    ensures Pow(256, r) <= Pow(58, r * 138 / 100 + 1)
  {
    assert Pow(58, 4) == 11316496 && Pow(256, 4) == 0x1_0000_0000;
    assert Pow(58, 1) == 58 && Pow(58, 2) == 3364 && Pow(58, 3) == 195112;
    assert Pow(256, 1) == 256 && Pow(256, 2) == 65536 && Pow(256, 3) == 0x100_0000;
    if r >= 3 {
      PowSum(58, 4, r * 138 / 100 + 1 - 4);
    }
    if r >= 4 {
      PowSum(256, 4, r - 4);
    }
    if r == 6 || r == 7 {
      PowSum(58, 4, r * 138 / 100 + 1 - 8);
    }
    if r == 7 {
      assert Pow(58, 2) == 3364;
    }
  }

  /** The buffer of len * 138 / 100 + 1 digits holds every number of len bytes. */
  lemma {:induction false} BufferFits(len: nat)
    ensures Pow(256, len) <= Pow(58, len * 138 / 100 + 1)
  {
    if len < 8 {
      FewBytes(len);
    } else {
      BufferFits(len - 8);
      MoreBytes(len - 8, (len - 8) * 138 / 100 + 1, len * 138 / 100 + 1);
    }
  }

  lemma MoreBytes(n: nat, m: nat, size: nat)
    requires Pow(256, n) <= Pow(58, m) && m + 11 <= size
    ensures Pow(256, n + 8) <= Pow(58, size)
  {
    hide Pow;
    EightBytes();
    PowSum(256, n, 8);
    PowSum(58, m, 11);
    MulBoth(Pow(256, n), Pow(58, m), Pow(256, 8), Pow(58, 11));
    PowUp(58, m + 11, size);
  }

  lemma MulBoth(a: nat, b: nat, c: nat, d: nat)
    requires a <= b && c <= d
    ensures a * c <= b * d
  {
    MulUp(a, b, c);
    MulUp(c, d, b);
  }

  lemma CarryStep(carry: nat, d: nat, pow: nat, done: nat, was: nat, byte: nat)
    requires carry * pow + done == was * 256 + byte
    ensures
      var x := carry + 256 * d;
      x / 58 * (pow * 58) + (x % 58 * pow + done) == (d * pow + was) * 256 + byte
  {
    var x := carry + 256 * d;
    assert x / 58 * (pow * 58) + x % 58 * pow == x * pow by {
      assert x == x / 58 * 58 + x % 58;
      assert x / 58 * (pow * 58) == x / 58 * 58 * pow;
    }
    assert x * pow == carry * pow + 256 * d * pow;
  }

  lemma NumFront(d: nat, s: seq<nat>, base: nat)
    ensures Num([d] + s, base) == d * Pow(base, |s|) + Num(s, base)
  {
    NumSum([d], s, base);
    assert Num([d], base) == d by {
      assert [d][..0] == [];
    }
  }

  /** b58 = b58 * 256 + byte, digit by digit from the right; nothing is carried out. */
  method MulAdd(b58: array<nat>, byte: nat)
    requires Digits(b58[..], 58) && Num(b58[..], 58) * 256 + byte < Pow(58, b58.Length)
    modifies b58
    ensures Digits(b58[..], 58) && Num(b58[..], 58) == Num(old(b58[..]), 58) * 256 + byte
  {
    hide Num, Pow;
    var carry: nat, j: nat := byte, b58.Length;
    ghost var was := b58[..];
    NumEmpty(58);
    assert b58[j..] == was[j..] == [];
    while j != 0
      invariant j <= b58.Length && Digits(b58[..], 58) && b58[..j] == was[..j]
      invariant carry * Pow(58, b58.Length - j) + Num(b58[j..], 58) == Num(was[j..], 58) * 256 + byte
    {
      ghost var done := b58[j..];
      CarryStep(carry, was[j - 1], Pow(58, b58.Length - j), Num(done, 58), Num(was[j..], 58), byte);
      j := j - 1;
      assert b58[j] == was[j];
      carry := carry + 256 * b58[j];
      b58[j] := carry % 58;
      carry := carry / 58;
      assert b58[j..] == [b58[j]] + done && was[j..] == [was[j]] + was[j + 1..];
      NumFront(b58[j], done, 58);
      NumFront(was[j], was[j + 1..], 58);
      PowNext(58, |done|);
    }
    assert b58[0..] == b58[..] && was[0..] == was;
    NoCarry(carry, Pow(58, b58.Length), Num(b58[..], 58));
    assert carry == 0;
  }

  lemma NumEmpty(base: nat)
    ensures Num([], base) == 0 && Pow(base, 0) == 1
  {
  }

  lemma PowNext(base: nat, n: nat)
    ensures Pow(base, n + 1) == Pow(base, n) * base
  {
  }

  lemma NoCarry(carry: nat, pow: nat, rest: nat)
    requires carry * pow + rest < pow
    ensures carry == 0
  {
    if carry > 0 {
      MulUp(1, carry, pow);
    }
  }

  // ---------------------------------------------------------------- encoding

  function Ones(n: nat): (s: string)
    ensures |s| == n && forall i :: 0 <= i < n ==> s[i] == '1'
  {
    if n == 0 then [] else Ones(n - 1) + ['1']
  }

  function Text(digits: seq<nat>): (s: string)
    requires Digits(digits, 58)
    ensures |s| == |digits| && |ALPHABET| == 58 && forall i :: 0 <= i < |digits| ==> s[i] == ALPHABET[digits[i]]
  {
    AlphabetSize();
    if digits == [] then [] else Text(digits[..|digits| - 1]) + [ALPHABET[digits[|digits| - 1]]]
  }

  lemma AlphabetSize()
    ensures |ALPHABET| == 58
  {
    AlphabetIs();
  }

  /** A '1' for each leading zero byte, then the number in base 58. */
  function Encoded(vch: seq<nat>): string {
    Ones(|vch| - |Strip(vch)|) + Text(Numeral(Num(vch, 256), 58))
  }

  lemma {:induction false} StripAt(s: seq<nat>, n: nat)
    requires n <= |s| && (forall i :: 0 <= i < n ==> s[i] == 0) && (n == |s| || s[n] != 0)
    ensures Strip(s) == s[n..]
  {
    if n > 0 {
      StripAt(s[1..], n - 1);
    }
  }

  method EncodeBase58(vch: seq<nat>) returns (str: string)
    requires IsBytes(vch)
    ensures str == Encoded(vch)
  {
    hide Num, Pow, Numeral, Text, Ones, Strip;
    var zeroes := 0;
    while zeroes != |vch| && vch[zeroes] == 0
      invariant zeroes <= |vch| && forall i :: 0 <= i < zeroes ==> vch[i] == 0
    {
      zeroes := zeroes + 1;
    }
    StripAt(vch, zeroes);
    NumStrip(vch, 256);
    var b58 := new nat[(|vch| - zeroes) * 138 / 100 + 1](_ => 0);
    FillBuffer(b58, vch[zeroes..]);
    var text := BufferText(b58);
    str := Ones(zeroes) + text;
  }

  /** The bytes go into the zeroed buffer one after the other. */
  method FillBuffer(b58: array<nat>, rest: seq<nat>)
    requires IsBytes(rest) && b58.Length == |rest| * 138 / 100 + 1 && forall i :: 0 <= i < b58.Length ==> b58[i] == 0
    modifies b58
    ensures Digits(b58[..], 58) && Num(b58[..], 58) == Num(rest, 256)
  {
    hide Num, Pow;
    NumZeros(b58[..], 58);
    NumEmpty(256);
    var p := 0;
    assert rest[..0] == [];
    while p != |rest|
      invariant p <= |rest| && Digits(b58[..], 58) && Num(b58[..], 58) == Num(rest[..p], 256)
    {
      PrefixFits(rest, p, b58.Length);
      MulAdd(b58, rest[p]);
      p := p + 1;
    }
    assert rest[..p] == rest;
  }

  /** The characters of the buffer's digits after its leading zeros. */
  method BufferText(b58: array<nat>) returns (str: string)
    requires Digits(b58[..], 58)
    ensures str == Text(Numeral(Num(b58[..], 58), 58))
  {
    hide Num, Numeral, Text, Strip;
    var it := 0;
    while it != b58.Length && b58[it] == 0
      invariant it <= b58.Length && forall i :: 0 <= i < it ==> b58[i] == 0
    {
      it := it + 1;
    }
    StripAt(b58[..], it);
    StripIsNumeral(b58[..], 58);
    assert b58[it..] == b58[..][it..];
    str := Translate(b58, it);
  }

  /** Translates the digits from position `first` on. */
  method Translate(b58: array<nat>, first: nat) returns (str: string)
    requires first <= b58.Length && Digits(b58[first..], 58)
    ensures str == Text(b58[first..])
  {
    hide Text, ALPHABET;
    ghost var digits := b58[first..];
    AlphabetSize();
    str := "";
    TextNone();
    var it := first;
    while it != b58.Length
      invariant first <= it <= b58.Length && str == Text(digits[..it - first])
    {
      TextNext(digits, it - first);
      str := str + [ALPHABET[b58[it]]];
      it := it + 1;
    }
    assert digits[..|digits|] == digits;
  }

  lemma TextNone()
    ensures Text([]) == ""
  {
  }

  lemma TextNext(digits: seq<nat>, i: nat)
    requires Digits(digits, 58) && i < |digits|
    ensures |ALPHABET| == 58 && Text(digits[..i + 1]) == Text(digits[..i]) + [ALPHABET[digits[i]]]
  {
    assert digits[..i + 1][..i] == digits[..i];
  }

  /** What the buffer holds times 256, plus the next byte, stays below its capacity. */
  lemma PrefixFits(s: seq<nat>, k: nat, length: nat)
    requires IsBytes(s) && k < |s| && length == |s| * 138 / 100 + 1
    ensures Num(s[..k + 1], 256) == Num(s[..k], 256) * 256 + s[k] < Pow(58, length)
  {
    assert s[..k + 1][..k] == s[..k];
    NumBound(s[..k + 1], 256);
    PowUp(256, k + 1, |s|);
    BufferFits(|s|);
  }

  // ---------------------------------------------------------------- decoding

  /** The text of a C string: everything before the first zero character. */
  function CStr(s: string): (t: string)
    ensures forall i :: 0 <= i < |t| ==> t[i] != '\0'
    ensures (forall i :: 0 <= i < |s| ==> s[i] != '\0') ==> t == s
  {
    if s == "" || s[0] == '\0' then "" else [s[0]] + CStr(s[1..])
  }

  /** The first position from i on whose character is no space. */
  function AfterSpaces(s: string, i: nat): (j: nat)
    requires i <= |s|
    ensures i <= j <= |s| && (forall k :: i <= k < j ==> IsSpace(s[k])) && (j < |s| ==> !IsSpace(s[j]))
    decreases |s| - i
  {
    if i < |s| && IsSpace(s[i]) then AfterSpaces(s, i + 1) else i
  }

  function AfterOnes(s: string, i: nat): (j: nat)
    requires i <= |s|
    ensures i <= j <= |s| && (forall k :: i <= k < j ==> s[k] == '1') && (j < |s| ==> s[j] != '1')
    decreases |s| - i
  {
    if i < |s| && s[i] == '1' then AfterOnes(s, i + 1) else i
  }

  function AfterDigits(s: string, i: nat): (j: nat)
    requires i <= |s|
    ensures i <= j <= |s| && (forall k :: i <= k < j ==> DigitOf(s[k]).Some?) && (j < |s| ==> DigitOf(s[j]).None?)
    decreases |s| - i
  {
    if i < |s| && DigitOf(s[i]).Some? then AfterDigits(s, i + 1) else i
  }

  function DigitsOf(s: string): (q: seq<nat>)
    requires forall k :: 0 <= k < |s| ==> DigitOf(s[k]).Some?
    ensures |q| == |s| && forall k :: 0 <= k < |s| ==> q[k] == DigitOf(s[k]).value
  {
    if s == "" then [] else DigitsOf(s[..|s| - 1]) + [DigitOf(s[|s| - 1]).value]
  }

  /** Spaces and '1's are skipped, digits read, and only spaces may follow; the result is the
      number without leading zero bytes. */
  function Decoded(psz: string): Option<seq<nat>> {
    var start := AfterOnes(psz, AfterSpaces(psz, 0));
    var end := AfterDigits(psz, start);
    if AfterSpaces(psz, end) < |psz| then None
    else Some(Numeral(Num(DigitsOf(psz[start..end]), 58), 256))
  }

  /** The big number's bytes, least significant first, with a zero byte to keep the sign. */
  function GetVch(bn: nat): seq<nat> {
    var le := Reversed(Numeral(bn, 256));
    if le != [] && le[|le| - 1] >= 0x80 then le + [0] else le
  }

  function Reversed(s: seq<nat>): (t: seq<nat>)
    ensures |t| == |s| && forall i :: 0 <= i < |s| ==> t[i] == s[|s| - 1 - i]
  {
    if s == [] then [] else Reversed(s[1..]) + [s[0]]
  }

  method DecodeBase58(str: string) returns (ok: bool, vchRet: seq<nat>)
    ensures ok <==> Decoded(CStr(str)).Some?
    ensures vchRet == if ok then Decoded(CStr(str)).value else []
  {
    hide *;
    var psz := CStr(str);
    DecodedIs(psz);
    vchRet := [];
    var start := SkipFront(psz);
    var bn: nat;
    ok, bn := ReadNumber(psz, start);
    if !ok {
      return;
    }
    var vchTmp := GetVch(bn);
    if |vchTmp| >= 2 && vchTmp[|vchTmp| - 1] == 0 && vchTmp[|vchTmp| - 2] >= 0x80 {
      vchTmp := vchTmp[..|vchTmp| - 1];
    }
    TrimmedSign(bn);
    var nLeadingZeros := CountOnes(psz, start);
    NoOnesLeft(psz, start);
    vchRet := seq(nLeadingZeros, _ => 0) + Reversed(vchTmp);
    ReversedTwice(Numeral(bn, 256));
  }

  /** The decoder's second count of '1's, which starts after they were skipped. */
  method CountOnes(psz: string, start: nat) returns (n: nat)
    requires start <= |psz|
    ensures start + n == AfterOnes(psz, start)
  {
    n := 0;
    while start + n < |psz| && psz[start + n] == '1'
      invariant start + n <= |psz| && AfterOnes(psz, start + n) == AfterOnes(psz, start)
    {
      n := n + 1;
    }
  }

  lemma NoOnesLeft(psz: string, start: nat)
    requires start <= |psz| && (start < |psz| ==> psz[start] != '1')
    ensures AfterOnes(psz, start) == start
  {
  }

  lemma DecodedIs(psz: string)
    ensures
      var start := AfterOnes(psz, AfterSpaces(psz, 0));
      var end := AfterDigits(psz, start);
      Decoded(psz) == if AfterSpaces(psz, end) < |psz| then None
                      else Some(Numeral(Num(DigitsOf(psz[start..end]), 58), 256))
  {
    hide DigitOf, IsSpace, Num, DigitsOf;
  }

  /** Skips leading spaces, then leading '1's. */
  method SkipFront(psz: string) returns (i: nat)
    ensures i == AfterOnes(psz, AfterSpaces(psz, 0)) && (i < |psz| ==> psz[i] != '1')
  {
    hide IsSpace;
    i := 0;
    while i < |psz| && IsSpace(psz[i])
      invariant i <= |psz| && AfterSpaces(psz, i) == AfterSpaces(psz, 0)
    {
      i := i + 1;
    }
    ghost var spaces := i;
    while i < |psz| && psz[i] == '1'
      invariant spaces <= i <= |psz| && AfterOnes(psz, i) == AfterOnes(psz, spaces)
    {
      i := i + 1;
    }
  }

  /** The digits from `start` on, up to the end or to trailing spaces. */
  method ReadNumber(psz: string, start: nat) returns (ok: bool, bn: nat)
    requires start <= |psz|
    ensures ok <==> AfterSpaces(psz, AfterDigits(psz, start)) == |psz|
    ensures ok ==> bn == Num(DigitsOf(psz[start..AfterDigits(psz, start)]), 58)
  {
    hide Num, DigitOf, DigitsOf, IsSpace;
    bn := 0;
    var p := start;
    DigitsNone();
    assert psz[start..start] == "";
    while p < |psz|
      invariant start <= p <= |psz| && AfterDigits(psz, p) == AfterDigits(psz, start)
      invariant forall k :: start <= k < p ==> DigitOf(psz[k]).Some?
      invariant bn == Num(DigitsOf(psz[start..p]), 58)
    {
      var p1 := DigitOf(psz[p]);
      if p1.None? {
        var q := p;
        while q < |psz| && IsSpace(psz[q])
          invariant p <= q <= |psz| && AfterSpaces(psz, q) == AfterSpaces(psz, p)
        {
          q := q + 1;
        }
        if q < |psz| {
          return false, bn;
        }
        break;
      }
      DigitsNext(psz, start, p);
      bn := bn * 58 + p1.value;
      p := p + 1;
    }
    ok := true;
  }

  lemma DigitsNone()
    ensures DigitsOf("") == [] && Num([], 58) == 0
  {
  }

  lemma DigitsNext(s: string, start: nat, p: nat)
    requires start <= p < |s| && forall k :: start <= k <= p ==> DigitOf(s[k]).Some?
    ensures Num(DigitsOf(s[start..p + 1]), 58) == Num(DigitsOf(s[start..p]), 58) * 58 + DigitOf(s[p]).value
  {
    hide DigitOf;
    assert s[start..p + 1][..p - start] == s[start..p];
    var q := DigitsOf(s[start..p + 1]);
    assert q[..|q| - 1] == DigitsOf(s[start..p]);
  }

  /** The zero byte GetVch may add is exactly what the decoder trims. */
  lemma TrimmedSign(bn: nat)
    ensures
      var v := GetVch(bn);
      var t := if |v| >= 2 && v[|v| - 1] == 0 && v[|v| - 2] >= 0x80 then v[..|v| - 1] else v;
      t == Reversed(Numeral(bn, 256))
    ensures GetVch(bn) == [] || GetVch(bn)[|GetVch(bn)| - 1] < 0x80
  {
    hide Numeral, Reversed;
    var n := Numeral(bn, 256);
    var le := Reversed(n);
    if le != [] {
      assert le[|le| - 1] == n[0] != 0;
    }
  }

  lemma ReversedTwice(s: seq<nat>)
    ensures Reversed(Reversed(s)) == s
  {
    hide Reversed;
  }

  // ---------------------------------------------------------------- round trips

  lemma {:induction false} DigitsOfText(digits: seq<nat>)
    requires Digits(digits, 58)
    ensures forall k :: 0 <= k < |digits| ==> DigitOf(Text(digits)[k]) == Some(digits[k])
    ensures DigitsOf(Text(digits)) == digits
  {
    hide DigitOf, Text, DigitsOf;
    forall k | 0 <= k < |digits| ensures DigitOf(Text(digits)[k]) == Some(digits[k]) {
      DigitOfChar(digits[k]);
    }
  }

  /** Reading encoded bytes gives them back without their leading zeros. */
  lemma DecodeEncode(vch: seq<nat>)
    requires IsBytes(vch)
    ensures CStr(Encoded(vch)) == Encoded(vch) && Decoded(Encoded(vch)) == Some(Strip(vch))
  {
    hide Num, Numeral, DigitOf, DigitsOf, Text, Strip, IsSpace, CStr;
    var z := |vch| - |Strip(vch)|;
    var digits := Numeral(Num(vch, 256), 58);
    var s := Encoded(vch);
    assert s == Ones(z) + Text(digits);
    DigitsOfText(digits);
    forall k | 0 <= k < |s| ensures DigitOf(s[k]).Some? && !IsSpace(s[k]) && s[k] != '\0' {
      if k < z {
        NoSpaceInAlphabet('1');
      } else {
        assert s[k] == Text(digits)[k - z];
        NoSpaceInAlphabet(s[k]);
      }
    }
    if digits != [] {
      NoSpaceInAlphabet(Text(digits)[0]);
    }
    assert AfterSpaces(s, 0) == 0;
    OnesEnd(s, z);
    assert AfterDigits(s, z) == |s|;
    assert s[z..|s|] == Text(digits);
    StripIsNumeral(vch, 256);
    NumStrip(vch, 256);
  }

  lemma OnesEnd(s: string, z: nat)
    requires z <= |s| && (forall k :: 0 <= k < z ==> s[k] == '1') && (z < |s| ==> s[z] != '1')
    ensures AfterOnes(s, 0) == z
  {
  }

  /** The live decoder gives back exactly the encoded bytes if and only if they do not start
      with a zero byte. */
  lemma RoundTripIff(vch: seq<nat>)
    requires IsBytes(vch)
    ensures Decoded(CStr(Encoded(vch))) == Some(vch) <==> vch == [] || vch[0] != 0
  {
    DecodeEncode(vch);
  }

  /** Encoding what was decoded gives back the digits that were read. */
  lemma EncodeDecode(psz: string)
    requires Decoded(psz).Some?
    ensures
      var start := AfterOnes(psz, AfterSpaces(psz, 0));
      Encoded(Decoded(psz).value) == psz[start..AfterDigits(psz, start)]
  {
    hide Num, Numeral, DigitOf, DigitsOf, Text, IsSpace;
    var start := AfterOnes(psz, AfterSpaces(psz, 0));
    var end := AfterDigits(psz, start);
    var t := psz[start..end];
    var q := DigitsOf(t);
    forall k | 0 <= k < |t| ensures q[k] < 58 && |ALPHABET| == 58 && ALPHABET[q[k]] == t[k] && (q[k] == 0 <==> t[k] == '1') {
      DigitBound(t[k]);
      NoSpaceInAlphabet(t[k]);
    }
    NumeralOfNum(q, 58);
    assert Text(q) == t;
    var vch := Numeral(Num(q, 58), 256);
    StripAt(vch, 0);
  }

  // ---------------------------------------------------------------- checksummed text

  /** The opaque hash yields bytes, at least four of them. */
  ghost predicate HashesOk(hash: seq<nat> -> seq<nat>) {
    forall x :: |hash(x)| >= 4 && IsBytes(hash(x))
  }

  method EncodeBase58Check(vchIn: seq<nat>, hash: seq<nat> -> seq<nat>) returns (str: string)
    requires IsBytes(vchIn) && HashesOk(hash)
    ensures str == Encoded(vchIn + hash(vchIn)[..4])
  {
    var vch := vchIn;
    var h := hash(vch);
    vch := vch + h[..4];
    str := EncodeBase58(vch);
  }

  /** The bytes before a matching four-byte checksum. */
  ghost function Checked(w: seq<nat>, hash: seq<nat> -> seq<nat>): Option<seq<nat>>
    requires HashesOk(hash)
  {
    if |w| >= 4 && hash(w[..|w| - 4])[..4] == w[|w| - 4..] then Some(w[..|w| - 4]) else None
  }

  method DecodeBase58Check(psz: string, hash: seq<nat> -> seq<nat>) returns (ok: bool, vchRet: seq<nat>)
    requires HashesOk(hash)
    ensures ok <==> Decoded(CStr(psz)).Some? && Checked(Decoded(CStr(psz)).value, hash).Some?
    ensures vchRet == if ok then Checked(Decoded(CStr(psz)).value, hash).value else []
  {
    hide Decoded, CStr;
    ok, vchRet := DecodeBase58(psz);
    if !ok || |vchRet| < 4 {
      return false, [];
    }
    var h := hash(vchRet[..|vchRet| - 4]);
    if h[..4] != vchRet[|vchRet| - 4..] {
      return false, [];
    }
    vchRet := vchRet[..|vchRet| - 4];
  }

  /** Checksummed text reads back exactly, unless it starts with a zero byte. */
  lemma CheckRoundTripIff(v: seq<nat>, hash: seq<nat> -> seq<nat>)
    requires IsBytes(v) && HashesOk(hash)
    ensures
      var w := v + hash(v)[..4];
      var back := Decoded(CStr(Encoded(w)));
      back.Some? && (Checked(back.value, hash) == Some(v) <==> w[0] != 0)
  {
    hide Encoded, Decoded, CStr;
    var w := v + hash(v)[..4];
    DecodeEncode(w);
    if w[0] != 0 {
      StripAt(w, 0);
      assert w[..|w| - 4] == v;
    } else {
      assert |Strip(w)| < |w|;
    }
  }

  class CBase58Data {
    var vchVersion: seq<nat>
    var vchData: seq<nat>

    constructor ()
      ensures vchVersion == [] && vchData == []
    {
      vchVersion, vchData := [], [];
    }

    method SetData(vchVersionIn: seq<nat>, data: seq<nat>)
      modifies this
      ensures vchVersion == vchVersionIn && vchData == data
    {
      vchVersion := vchVersionIn;
      vchData := data;
    }

    method ToString(hash: seq<nat> -> seq<nat>) returns (str: string)
      requires IsBytes(vchVersion) && IsBytes(vchData) && HashesOk(hash)
      ensures var vch := vchVersion + vchData; str == Encoded(vch + hash(vch)[..4])
    {
      str := EncodeBase58Check(vchVersion + vchData, hash);
    }

    /** Reads back what ToString wrote for a version of nVersionBytes bytes, the first one not
        zero; any other outcome of the check empties both fields or splits what was read. */
    method SetString(psz: string, nVersionBytes: nat, hash: seq<nat> -> seq<nat>) returns (ok: bool)
      requires HashesOk(hash)
      modifies this
      ensures
        var w := Decoded(CStr(psz));
        var v := if w.Some? then Checked(w.value, hash) else None;
        && (ok <==> v.Some? && |v.value| >= nVersionBytes)
        && (ok ==> v == Some(vchVersion + vchData) && |vchVersion| == nVersionBytes)
        && (!ok ==> vchVersion == [] && vchData == [])
      ensures forall version, data :: IsTextOf(psz, version, data, nVersionBytes, hash) ==>
                ok && vchVersion == version && vchData == data
    {
      hide Encoded, Decoded, CStr, Checked;
      ReadsBack(psz, nVersionBytes, hash);
      var rc58, vchTemp := DecodeBase58Check(psz, hash);
      if !rc58 || |vchTemp| < nVersionBytes {
        vchData, vchVersion := [], [];
        return false;
      }
      vchVersion := vchTemp[..nVersionBytes];
      vchData := vchTemp[nVersionBytes..];
      assert vchTemp == vchVersion + vchData;
      forall version, data | |version| == nVersionBytes && vchTemp == version + data
        ensures vchVersion == version && vchData == data
      {
        assert (version + data)[..nVersionBytes] == version && (version + data)[nVersionBytes..] == data;
      }
      return true;
    }
  }

  /** psz is what ToString writes for a version of n bytes, the first one not zero. */
  ghost predicate IsTextOf(psz: string, version: seq<nat>, data: seq<nat>, n: nat, hash: seq<nat> -> seq<nat>)
    requires HashesOk(hash)
  {
    && IsBytes(version + data) && |version| == n > 0 && version[0] != 0
    && psz == Encoded((version + data) + hash(version + data)[..4])
  }

  lemma ReadsBack(psz: string, n: nat, hash: seq<nat> -> seq<nat>)
    requires HashesOk(hash)
    ensures forall version, data :: IsTextOf(psz, version, data, n, hash) ==>
              Decoded(CStr(psz)).Some? && Checked(Decoded(CStr(psz)).value, hash) == Some(version + data)
  {
    hide Encoded, Decoded, CStr, Checked, Digits;
    forall version, data | IsTextOf(psz, version, data, n, hash)
      ensures Decoded(CStr(psz)).Some? && Checked(Decoded(CStr(psz)).value, hash) == Some(version + data)
    {
      CheckRoundTripIff(version + data, hash);
    }
  }

  // ---------------------------------------------------------------- the prefixes in use

  datatype Base58Type = PUBKEY_ADDRESS | SCRIPT_ADDRESS | SECRET_KEY | STEALTH_ADDRESS | EXT_PUBLIC_KEY | EXT_SECRET_KEY

  function MainPrefix(t: Base58Type): seq<nat> {
    match t
    case PUBKEY_ADDRESS => [55]
    case SCRIPT_ADDRESS => [85]
    case SECRET_KEY => [153]
    case STEALTH_ADDRESS => [40]
    case EXT_PUBLIC_KEY => [0x04, 0x88, 0xB2, 0x1E]
    case EXT_SECRET_KEY => [0x04, 0x88, 0xAD, 0xE4]
  }

  function TestPrefix(t: Base58Type): seq<nat> {
    match t
    case PUBKEY_ADDRESS => [127]
    case SCRIPT_ADDRESS => [196]
    case SECRET_KEY => [239]
    case STEALTH_ADDRESS => [40]
    case EXT_PUBLIC_KEY => [0x04, 0x35, 0x87, 0xCF]
    case EXT_SECRET_KEY => [0x04, 0x35, 0x83, 0x94]
  }

  /** With every prefix the chains use, checksummed text reads back exactly. */
  lemma PrefixedRoundTrip(t: Base58Type, test: bool, data: seq<nat>, hash: seq<nat> -> seq<nat>)
    requires IsBytes(data) && HashesOk(hash)
    ensures
      var v := (if test then TestPrefix(t) else MainPrefix(t)) + data;
      var back := Decoded(CStr(Encoded(v + hash(v)[..4])));
      back.Some? && Checked(back.value, hash) == Some(v)
  {
    hide Encoded, Decoded, CStr, Checked;
    CheckRoundTripIff((if test then TestPrefix(t) else MainPrefix(t)) + data, hash);
  }
}
