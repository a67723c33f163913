/** How GenerateNoise names the slice files it writes and the importer loop
    finds them again: a decimal slice number, zero-padded to four digits. */
module SliceNaming {

  predicate IsDigit(c: char) {
    '0' <= c <= '9'
  }

  predicate AllDigits(s: string) {
    forall i :: 0 <= i < |s| ==> IsDigit(s[i])
  }

  function DigitValue(c: char): (d: nat)
    requires IsDigit(c)
  {
    c as int - '0' as int
  }

  function DigitChar(d: nat): (c: char)
    requires d < 10
    ensures IsDigit(c) && DigitValue(c) == d
  {
    ('0' as int + d) as char
  }

  function Pow10(n: nat): (power: nat) {
    if n == 0 then 1 else 10 * Pow10(n - 1)
  }

  /** The number a string of decimal digits denotes, most significant digit first. */
  function DecimalValue(s: string): (value: nat)
    requires AllDigits(s)
  {
    if s == [] then 0 else DigitValue(s[0]) * Pow10(|s| - 1) + DecimalValue(s[1..])
  }

  /** `n.ToString()` for a non-negative C# int: shortest decimal, no sign. */
  function DecimalString(n: nat): (digits: string) {
    if n < 10 then [DigitChar(n)] else DecimalString(n / 10) + [DigitChar(n % 10)]
  }

  /** The slice number in a file name, as GenerateNoise builds it twice over. */
  function FileNumber(u: nat): (number: string) {
    if u < 10 then "000" + DecimalString(u)
    else if u < 100 then "00" + DecimalString(u)
    else if u < 1000 then "0" + DecimalString(u)
    else DecimalString(u)
  }

  /** Left-pads `s` with '0' up to `width` characters (`PadLeft(width, '0')`). */
  function ZeroPadded(s: string, width: nat): (padded: string) {
    if |s| >= width then s else seq(width - |s|, _ => '0') + s
  }

  /** The part of a slice's asset path before its file number. */
  function SliceNamePrefix(folderName: string): (prefix: string) {
    "/Resources/CloudNoiseGen/" + folderName + "/ZSlice_"
  }

  /** The asset path, relative to the project's Assets folder, of slice `u` of `folderName`. */
  function SliceAssetPath(folderName: string, u: nat): (path: string) {
    SliceNamePrefix(folderName) + FileNumber(u) + ".png"
  }

  /** The path the importer of slice `u` is looked up by. */
  function ImporterPath(folderName: string, u: nat): (path: string) {
    "Assets" + SliceAssetPath(folderName, u)
  }

  /** Ordinal string comparison: the order of names in a sorted directory listing. */
  predicate LexLess(a: string, b: string) {
    if a == [] then b != []
    else if b == [] then false
    else if a[0] != b[0] then a[0] < b[0]
    else LexLess(a[1..], b[1..])
  }

  // ---------------------------------------------------------------------------
  // Decimal strings

  lemma {:induction false} DecimalValueBound(s: string)
    requires AllDigits(s)
    ensures DecimalValue(s) < Pow10(|s|)
  {
    if s != [] {
      DecimalValueBound(s[1..]);
      var d, p := DigitValue(s[0]), Pow10(|s| - 1);
      MulStep(d, 10, p);
      assert Pow10(|s|) == 10 * p;
    }
  }

  lemma MulTen(d: nat, p: nat)
    ensures d * (10 * p) == (d * p) * 10
  {
  }

  lemma MulStep(x: nat, y: nat, p: nat)
    requires x < y
    ensures x * p + p <= y * p
  {
    var k := y - (x + 1);
    assert y * p == x * p + p + k * p;
  }

  /** Appending a digit multiplies the value by ten and adds the digit. */
  lemma {:induction false} AppendDigit(s: string, c: char)
    requires AllDigits(s) && IsDigit(c)
    ensures AllDigits(s + [c])
    ensures DecimalValue(s + [c]) == DecimalValue(s) * 10 + DigitValue(c)
  {
    var t := s + [c];
    assert AllDigits(t) by {
      forall i | 0 <= i < |t| ensures IsDigit(t[i]) {
        if i < |s| { assert t[i] == s[i]; }
      }
    }
    if s != [] {
      assert t[0] == s[0] && t[1..] == s[1..] + [c];
      AppendDigit(s[1..], c);
      var d, p, rest := DigitValue(s[0]), Pow10(|s| - 1), DecimalValue(s[1..]);
      assert Pow10(|t| - 1) == 10 * p;
      assert DecimalValue(t) == d * (10 * p) + (rest * 10 + DigitValue(c));
      MulTen(d, p);
      assert DecimalValue(s) == d * p + rest;
    } else {
      assert t[1..] == [];
    }
  }

  /** DecimalString is read back as the number it was made from. */
  lemma {:induction false} DecimalStringValue(n: nat)
    ensures AllDigits(DecimalString(n))
    ensures DecimalValue(DecimalString(n)) == n
  {
    if n < 10 {
      assert DecimalString(n)[1..] == [];
    } else {
      DecimalStringValue(n / 10);
      AppendDigit(DecimalString(n / 10), DigitChar(n % 10));
    }
  }

  lemma {:induction false} DecimalStringLength(n: nat)
    ensures n < 10 ==> |DecimalString(n)| == 1
    ensures 10 <= n < 100 ==> |DecimalString(n)| == 2
    ensures 100 <= n < 1000 ==> |DecimalString(n)| == 3
    ensures 1000 <= n < 10000 ==> |DecimalString(n)| == 4
    ensures 1000 <= n ==> |DecimalString(n)| >= 4
  {
    if n >= 10 {
      DecimalStringLength(n / 10);
    }
  }

  /** A leading zero does not change the value. */
  lemma LeadingZero(s: string)
    requires AllDigits(s)
    ensures AllDigits("0" + s) && DecimalValue("0" + s) == DecimalValue(s)
  {
    assert ("0" + s)[1..] == s;
  }

  // ---------------------------------------------------------------------------
  // File numbers

  /** The if-chain is a left zero-pad to four digits: below 1000 the name has
      exactly four characters, from 1000 on it is the plain decimal string. */
  lemma FileNumberShape(u: nat)
    ensures FileNumber(u) == ZeroPadded(DecimalString(u), 4)
    ensures u < 10000 ==> |FileNumber(u)| == 4
    ensures u < 1000 ==> FileNumber(u)[0] == '0'
    ensures u >= 1000 ==> FileNumber(u) == DecimalString(u)
  {
    DecimalStringLength(u);
    var s := DecimalString(u);
    if u < 10 {
      assert seq(3, _ => '0') == "000";
    } else if u < 100 {
      assert seq(2, _ => '0') == "00";
    } else if u < 1000 {
      assert seq(1, _ => '0') == "0";
    }
  }

  /** A file number is all digits and denotes exactly the slice number. */
  lemma FileNumberValue(u: nat)
    ensures AllDigits(FileNumber(u))
    ensures DecimalValue(FileNumber(u)) == u
  {
    var s := DecimalString(u);
    DecimalStringValue(u);
    LeadingZero(s);
    LeadingZero("0" + s);
    LeadingZero("00" + s);
    assert "00" + s == "0" + ("0" + s);
    assert "000" + s == "0" + ("00" + s);
  }

  /** Distinct slices get distinct file numbers. */
  lemma FileNumberInjective(u: nat, v: nat)
    requires FileNumber(u) == FileNumber(v)
    ensures u == v
  {
    FileNumberValue(u);
    FileNumberValue(v);
  }

  /** For strings of digits of one length, the ordinal order is the numeric order. */
  lemma {:induction false} LexLessDigits(a: string, b: string)
    requires AllDigits(a) && AllDigits(b) && |a| == |b|
    ensures LexLess(a, b) <==> DecimalValue(a) < DecimalValue(b)
  {
    if a != [] {
      var p := Pow10(|a| - 1);
      var da, db := DigitValue(a[0]), DigitValue(b[0]);
      DecimalValueBound(a[1..]);
      DecimalValueBound(b[1..]);
      assert DecimalValue(a) == da * p + DecimalValue(a[1..]);
      assert DecimalValue(b) == db * p + DecimalValue(b[1..]);
      if a[0] < b[0] {
        assert da < db;
        MulStep(da, db, p);
      } else if b[0] < a[0] {
        assert db < da;
        MulStep(db, da, p);
      } else {
        LexLessDigits(a[1..], b[1..]);
      }
    }
  }

  /** Below 10000 the padded names sort in slice order. */
  lemma FileNumberOrder(u: nat, v: nat)
    requires u < 10000 && v < 10000
    ensures u < v <==> LexLess(FileNumber(u), FileNumber(v))
  {
    FileNumberShape(u);
    FileNumberShape(v);
    FileNumberValue(u);
    FileNumberValue(v);
    LexLessDigits(FileNumber(u), FileNumber(v));
  }

  /** From 10000 on the padding no longer keeps that order: "10000" sorts before "9999". */
  lemma FileNumberOrderEndsAt10000()
    ensures LexLess(FileNumber(10000), FileNumber(9999))
  {
    DecimalStringLength(1000);
    DecimalStringLength(999);
    assert DecimalString(1) == "1";
    assert DecimalString(10) == "10";
    assert DecimalString(100) == "100";
    assert DecimalString(1000) == "1000";
    assert FileNumber(10000) == "10000";
    assert DecimalString(9) == "9";
    assert DecimalString(99) == "99";
    assert DecimalString(999) == "999";
    assert FileNumber(9999) == "9999";
  }

  lemma Regroup(w: string, x: string, y: string, z: string)
    ensures w + (x + y + z) == w + x + y + z
  {
  }

  /** Equal strings with a common prefix and suffix agree in between. */
  lemma CancelAffixes(prefix: string, a: string, b: string, suffix: string)
    requires prefix + a + suffix == prefix + b + suffix
    ensures a == b
  {
    var s, t := prefix + a + suffix, prefix + b + suffix;
    assert |a| == |b|;
    assert a == s[|prefix|..|prefix| + |a|];
    assert b == t[|prefix|..|prefix| + |b|];
  }

  /** The importer loop finds each slice under a path of its own. */
  lemma ImporterPathInjective(folderName: string, u: nat, v: nat)
    requires ImporterPath(folderName, u) == ImporterPath(folderName, v)
    ensures u == v
  {
    var root, prefix, a, b := "Assets", SliceNamePrefix(folderName), FileNumber(u), FileNumber(v);
    Regroup(root, prefix, a, ".png");
    Regroup(root, prefix, b, ".png");
    CancelAffixes(root + prefix, a, b, ".png");
    FileNumberInjective(u, v);
  }
}
