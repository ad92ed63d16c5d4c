/** The JavaScript string operations the controllers rely on: `trim`,
    ASCII case mapping, decimal `toString`, `padStart` and `slice(-n)`,
    together with a decimal parser that undoes them. */
module Text {

  /** The characters `String.prototype.trim` removes: the ECMAScript
      WhiteSpace and LineTerminator code points. */
  predicate IsSpace(c: char) {
    var n := c as int;
    (0x09 <= n <= 0x0D) || n == 0x20 || n == 0xA0 || n == 0x1680
    || (0x2000 <= n <= 0x200A) || n == 0x2028 || n == 0x2029
    || n == 0x202F || n == 0x205F || n == 0x3000 || n == 0xFEFF
  }

  predicate AllSpace(s: string) {
    forall i :: 0 <= i < |s| ==> IsSpace(s[i])
  }

  function TrimStart(s: string): (r: string)
    ensures |r| <= |s| && r == s[|s| - |r|..]
    ensures forall i :: 0 <= i < |s| - |r| ==> IsSpace(s[i])
    ensures |r| > 0 ==> !IsSpace(r[0])
  {
    if |s| == 0 || !IsSpace(s[0]) then s else TrimStart(s[1..])
  }

  function TrimEnd(s: string): (r: string)
    ensures |r| <= |s| && r == s[..|r|]
    ensures forall i :: |r| <= i < |s| ==> IsSpace(s[i])
    ensures |r| > 0 ==> !IsSpace(r[|r| - 1])
  {
    if |s| == 0 || !IsSpace(s[|s| - 1]) then s else TrimEnd(s[..|s| - 1])
  }

  /** `s.trim()`. */
  function Trim(s: string): (r: string)
    ensures |r| <= |s|
    ensures |r| > 0 ==> !IsSpace(r[0]) && !IsSpace(r[|r| - 1])
  {
    TrimEnd(TrimStart(s))
  }

  /** What `trimStart` cuts away is white space. */
  lemma TrimStartCut(s: string)
    ensures AllSpace(s[..|s| - |TrimStart(s)|])
  {
    var head := s[..|s| - |TrimStart(s)|];
    forall i | 0 <= i < |head| ensures IsSpace(head[i]) {
      assert head[i] == s[i];
    }
  }

  /** What `trimEnd` cuts away is white space. */
  lemma TrimEndCut(t: string)
    ensures AllSpace(t[|TrimEnd(t)|..])
  {
    var tail := t[|TrimEnd(t)|..];
    forall i | 0 <= i < |tail| ensures IsSpace(tail[i]) {
      assert tail[i] == t[|TrimEnd(t)| + i];
    }
  }

  /** What `trim` keeps is an infix of the input, starting at `k`, and
      only white space is cut away on either side of it. */
  lemma TrimIsInfix(s: string) returns (k: nat)
    ensures k + |Trim(s)| <= |s| && Trim(s) == s[k..k + |Trim(s)|]
    ensures AllSpace(s[..k]) && AllSpace(s[k + |Trim(s)|..])
  {
    var t := TrimStart(s);
    var r := TrimEnd(t);
    assert r == Trim(s);
    k := |s| - |t|;
    TrimStartCut(s);
    TrimEndCut(t);
    SliceOfSuffix(s, k, |r|);
  }

  /** A prefix of a suffix is an infix, and what follows it is a suffix. */
  lemma SliceOfSuffix<T>(s: seq<T>, k: nat, n: nat)
    requires k + n <= |s|
    ensures s[k..][..n] == s[k..k + n]
    ensures s[k..][n..] == s[k + n..]
  {
  }

  /** Trimming an already trimmed string changes nothing. */
  lemma TrimIdempotent(s: string)
    ensures Trim(Trim(s)) == Trim(s)
  {
    var r := Trim(s);
    if |r| > 0 {
      assert TrimStart(r) == r;
      assert TrimEnd(r) == r;
    }
  }

  /** A string without white space at either end is its own trim. */
  lemma TrimFixesTrimmed(r: string)
    requires |r| > 0 ==> !IsSpace(r[0]) && !IsSpace(r[|r| - 1])
    ensures Trim(r) == r
  {
    assert TrimStart(r) == r;
    assert TrimEnd(r) == r;
  }

  /** A string trims to nothing exactly when it is all white space. */
  lemma TrimEmptyIffAllSpace(s: string)
    ensures Trim(s) == "" <==> AllSpace(s)
  {
  }

  // ---------------------------------------------------------- case mapping

  function UpperChar(c: char): char {
    if 'a' <= c <= 'z' then (c as int - 32) as char else c
  }

  function LowerChar(c: char): char {
    if 'A' <= c <= 'Z' then (c as int + 32) as char else c
  }

  /** `s.toUpperCase()` on the ASCII letters. */
  function ToUpper(s: string): (r: string)
    ensures |r| == |s|
    ensures forall i :: 0 <= i < |s| ==> r[i] == UpperChar(s[i])
    ensures forall i :: 0 <= i < |r| ==> !('a' <= r[i] <= 'z')
  {
    if |s| == 0 then [] else [UpperChar(s[0])] + ToUpper(s[1..])
  }

  /** `s.toLowerCase()` on the ASCII letters. */
  function ToLower(s: string): (r: string)
    ensures |r| == |s|
    ensures forall i :: 0 <= i < |s| ==> r[i] == LowerChar(s[i])
    ensures forall i :: 0 <= i < |r| ==> !('A' <= r[i] <= 'Z')
  {
    if |s| == 0 then [] else [LowerChar(s[0])] + ToLower(s[1..])
  }

  lemma CaseMappingKeepsSpace(c: char)
    ensures IsSpace(UpperChar(c)) <==> IsSpace(c)
    ensures IsSpace(LowerChar(c)) <==> IsSpace(c)
  {
  }

  /** Case mapping is idempotent. */
  lemma CaseMappingIdempotent(s: string)
    ensures ToUpper(ToUpper(s)) == ToUpper(s) && ToLower(ToLower(s)) == ToLower(s)
  {
    assert forall i :: 0 <= i < |s| ==> UpperChar(UpperChar(s[i])) == UpperChar(s[i]);
    assert forall i :: 0 <= i < |s| ==> LowerChar(LowerChar(s[i])) == LowerChar(s[i]);
  }

  /** Case mapping keeps a trimmed string trimmed. */
  lemma CaseMappingKeepsTrim(s: string)
    ensures Trim(ToUpper(Trim(s))) == ToUpper(Trim(s))
    ensures Trim(ToLower(Trim(s))) == ToLower(Trim(s))
  {
    var t := Trim(s);
    if |t| > 0 {
      CaseMappingKeepsSpace(t[0]);
      CaseMappingKeepsSpace(t[|t| - 1]);
    }
    TrimFixesTrimmed(ToUpper(t));
    TrimFixesTrimmed(ToLower(t));
  }

  // -------------------------------------------------------------- decimals

  predicate IsDigit(c: char) {
    '0' <= c <= '9'
  }

  predicate AllDigits(s: string) {
    forall i :: 0 <= i < |s| ==> IsDigit(s[i])
  }

  function DigitChar(d: nat): (c: char)
    requires d < 10
    ensures IsDigit(c)
  {
    ('0' as int + d) as char
  }

  function DigitValue(c: char): (d: nat)
    requires IsDigit(c)
    ensures d < 10
  {
    c as int - '0' as int
  }

  /** `n.toString()` for a natural number: its shortest decimal numeral. */
  function DecimalString(n: nat): (r: string)
    ensures |r| >= 1 && AllDigits(r)
    ensures n < 10 <==> |r| == 1
    ensures |r| > 1 ==> r[0] != '0'
  {
    if n < 10 then [DigitChar(n)] else DecimalString(n / 10) + [DigitChar(n % 10)]
  }

  function Pow10(k: nat): (r: nat)
    ensures r >= 1
  {
    if k == 0 then 1 else 10 * Pow10(k - 1)
  }

  /** A number below `10^k` prints in at most `k` digits. */
  lemma {:induction false} DecimalStringLength(n: nat, k: nat)
    requires k >= 1 && n < Pow10(k)
    ensures |DecimalString(n)| <= k
  {
    if n >= 10 {
      DecimalStringLength(n / 10, k - 1);
    }
  }

  /** The value of a string of decimal digits (leading zeros allowed). */
  function ParseDecimal(s: string): nat
    requires AllDigits(s)
  {
    if |s| == 0 then 0 else ParseDecimal(s[..|s| - 1]) * 10 + DigitValue(s[|s| - 1])
  }

  /** Reading back a printed number gives the number. */
  lemma {:induction false} ParseDecimalString(n: nat)
    ensures ParseDecimal(DecimalString(n)) == n
  {
    var s := DecimalString(n);
    if n >= 10 {
      assert s[..|s| - 1] == DecimalString(n / 10);
      ParseDecimalString(n / 10);
    }
  }

  function Repeat(c: char, n: nat): (r: string)
    ensures |r| == n
    ensures forall i :: 0 <= i < n ==> r[i] == c
  {
    if n == 0 then [] else [c] + Repeat(c, n - 1)
  }

  /** `s.padStart(width, c)`. */
  function PadStart(s: string, width: nat, c: char): (r: string)
    ensures |r| == if |s| >= width then |s| else width
    ensures r[|r| - |s|..] == s
    ensures forall i :: 0 <= i < |r| - |s| ==> r[i] == c
  {
    if |s| >= width then s else Repeat(c, width - |s|) + s
  }

  /** Leading zeros do not change the value of a decimal numeral. */
  lemma {:induction false} ParseIgnoresLeadingZeros(z: string, s: string)
    requires forall i :: 0 <= i < |z| ==> z[i] == '0'
    requires AllDigits(s)
    ensures AllDigits(z + s)
    ensures ParseDecimal(z + s) == ParseDecimal(s)
  {
    var zs := z + s;
    assert AllDigits(zs) by {
      forall i | 0 <= i < |zs| ensures IsDigit(zs[i]) {
        if i < |z| { assert zs[i] == z[i]; } else { assert zs[i] == s[i - |z|]; }
      }
    }
    if |s| == 0 {
      assert zs == z;
      AllZerosParseToZero(z);
    } else {
      assert zs[..|zs| - 1] == z + s[..|s| - 1];
      ParseIgnoresLeadingZeros(z, s[..|s| - 1]);
    }
  }

  lemma {:induction false} AllZerosParseToZero(z: string)
    requires forall i :: 0 <= i < |z| ==> z[i] == '0'
    ensures AllDigits(z) && ParseDecimal(z) == 0
  {
    if |z| > 0 {
      AllZerosParseToZero(z[..|z| - 1]);
    }
  }

  /** The numeral `padStart` produces from `n.toString()` still reads as `n`. */
  lemma PaddedDecimalParses(n: nat, width: nat)
    ensures AllDigits(PadStart(DecimalString(n), width, '0'))
    ensures ParseDecimal(PadStart(DecimalString(n), width, '0')) == n
  {
    var d := DecimalString(n);
    var r := PadStart(d, width, '0');
    ParseDecimalString(n);
    if |d| < width {
      ParseIgnoresLeadingZeros(Repeat('0', width - |d|), d);
    }
  }

  lemma AllDigitsJoin(a: string, b: string)
    requires AllDigits(a) && AllDigits(b)
    ensures AllDigits(a + b)
  {
    forall i | 0 <= i < |a + b| ensures IsDigit((a + b)[i]) {
      if i < |a| { assert (a + b)[i] == a[i]; } else { assert (a + b)[i] == b[i - |a|]; }
    }
  }

  /** Reading a joined numeral: the digits of `b` are the low places. */
  lemma {:induction false} ParseDecimalJoin(a: string, b: string)
    requires AllDigits(a) && AllDigits(b)
    ensures AllDigits(a + b)
    ensures ParseDecimal(a + b) == ParseDecimal(a) * Pow10(|b|) + ParseDecimal(b)
  {
    AllDigitsJoin(a, b);
    if |b| == 0 {
      assert a + b == a;
    } else {
      var b' := b[..|b| - 1];
      assert (a + b)[..|a + b| - 1] == a + b';
      ParseDecimalJoin(a, b');
      ShiftOnePlace(ParseDecimal(a), Pow10(|b'|), ParseDecimal(b'), DigitValue(b[|b| - 1]));
    }
  }

  lemma ShiftOnePlace(x: nat, y: nat, z: nat, d: nat)
    ensures (x * y + z) * 10 + d == x * (10 * y) + (z * 10 + d)
  {
  }

  /** A number from `10^k` on prints in more than `k` digits. */
  lemma {:induction false} DecimalStringLengthAtLeast(n: nat, k: nat)
    requires n >= Pow10(k)
    ensures |DecimalString(n)| > k
  {
    if k > 0 {
      assert n / 10 >= Pow10(k - 1);
      DecimalStringLengthAtLeast(n / 10, k - 1);
    }
  }

  /** The last character printed is the units digit. */
  lemma LastDecimalDigit(n: nat)
    ensures DecimalString(n)[|DecimalString(n)| - 1] == DigitChar(n % 10)
  {
  }

  /** The value of the two low decimal places. */
  lemma TensAndUnits(n: nat)
    ensures (n / 10) % 10 * 10 + n % 10 == n % 100
  {
    var q, a := n / 100, n % 100;
    assert n == 100 * q + a;
    assert n / 10 == 10 * q + a / 10;
    assert n % 10 == a % 10;
  }

  lemma DigitRoundTrip(k: nat)
    requires k < 10
    ensures DigitValue(DigitChar(k)) == k
  {
  }

  /** A two-digit numeral reads as tens and units. */
  lemma ParseTwoDigits(r: string)
    requires |r| == 2 && AllDigits(r)
    ensures ParseDecimal(r) == DigitValue(r[0]) * 10 + DigitValue(r[1])
  {
    assert r[..1][..0] == [];
    assert ParseDecimal(r[..1]) == DigitValue(r[0]);
  }

  /** The last two characters of a numeral of at least two digits are the
      tens digit and the units digit. */
  lemma LastTwoOfLong(n: nat)
    requires n >= 10
    ensures var r := LastTwo(DecimalString(n));
            |r| == 2 && r[0] == DigitChar((n / 10) % 10) && r[1] == DigitChar(n % 10)
  {
    var s := DecimalString(n);
    assert s == DecimalString(n / 10) + [DigitChar(n % 10)];
    LastDecimalDigit(n / 10);
  }

  /** `n.toString().slice(-2)` reads as the last two decimal places of `n`. */
  lemma LastTwoDigitsValue(n: nat)
    ensures AllDigits(LastTwo(DecimalString(n)))
    ensures ParseDecimal(LastTwo(DecimalString(n))) == n % 100
  {
    LastTwoAllDigits(DecimalString(n));
    if n >= 10 {
      LastTwoOfLongValue(n);
    } else {
      LastTwoOfShortValue(n);
    }
  }

  lemma LastTwoAllDigits(s: string)
    requires AllDigits(s)
    ensures AllDigits(LastTwo(s))
  {
    var r := LastTwo(s);
    forall i | 0 <= i < |r| ensures IsDigit(r[i]) {
      assert r[i] == s[|s| - |r| + i];
    }
  }

  lemma LastTwoOfLongValue(n: nat)
    requires n >= 10
    ensures AllDigits(LastTwo(DecimalString(n)))
    ensures ParseDecimal(LastTwo(DecimalString(n))) == n % 100
  {
    var r := LastTwo(DecimalString(n));
    LastTwoOfLong(n);
    ParseTwoDigits(r);
    DigitRoundTrip((n / 10) % 10);
    DigitRoundTrip(n % 10);
    TensAndUnits(n);
  }

  lemma LastTwoOfShortValue(n: nat)
    requires n < 10
    ensures LastTwo(DecimalString(n)) == [DigitChar(n)]
    ensures ParseDecimal([DigitChar(n)]) == n % 100
  {
    assert [DigitChar(n)][..0] == [];
    DigitRoundTrip(n);
  }

  /** Joining a two-digit numeral shifts the front by two places. */
  lemma ParseDecimalJoinTwo(a: string, b: string)
    requires AllDigits(a) && AllDigits(b) && |b| == 2
    ensures AllDigits(a + b)
    ensures ParseDecimal(a + b) == ParseDecimal(a) * 100 + ParseDecimal(b)
  {
    ParseDecimalJoin(a, b);
    assert Pow10(|b|) == 100;
  }

  /** `s.slice(-2)`: the last two characters, or all of a shorter string. */
  function LastTwo(s: string): (r: string)
    ensures |r| == if |s| >= 2 then 2 else |s|
    ensures r == s[|s| - |r|..]
  {
    if |s| >= 2 then s[|s| - 2..] else s
  }
}
