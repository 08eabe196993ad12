/**
 * The two QString services the start-up code relies on: case-insensitive
 * comparison (`QString::compare` with `Qt::CaseInsensitive`) and decimal
 * conversion in both directions (`QString::toInt`, `QString::number`).
 * Strings are sequences of characters; only the ASCII part of Qt's case
 * folding and white-space classes is modelled.
 */
module QtText {
  import opened Wrappers

  /** The range of a C++ `int` on the platforms Qt supports. */
  const INT_MIN: int := -0x8000_0000
  const INT_MAX: int := 0x7FFF_FFFF

  predicate IsInt32(n: int) {
    INT_MIN <= n <= INT_MAX
  }

  // ---------------------------------------------------------------------
  // Case-insensitive comparison
  // ---------------------------------------------------------------------

  /** Folds an ASCII upper-case letter to lower case; every other character is its own folding. */
  function FoldCase(c: char): char {
    if 'A' <= c <= 'Z' then (c as int - 'A' as int + 'a' as int) as char else c
  }

  /** The folded form of a whole string, character by character. */
  function FoldString(s: string): (r: string)
    ensures |r| == |s|
    ensures forall i :: 0 <= i < |s| ==> r[i] == FoldCase(s[i])
  {
    seq(|s|, i requires 0 <= i < |s| => FoldCase(s[i]))
  }

  /** `a.compare(b, Qt::CaseInsensitive) == 0`: the two strings are equal once folded. */
  predicate EqualsIgnoreCase(a: string, b: string) {
    FoldString(a) == FoldString(b)
  }

  /** Strings equal without regard to case have the same length and agree at every position once folded. */
  lemma EqualsIgnoreCaseCharacterwise(a: string, b: string)
    ensures EqualsIgnoreCase(a, b) <==> |a| == |b| && forall i :: 0 <= i < |a| ==> FoldCase(a[i]) == FoldCase(b[i])
  {
    if |a| == |b| && forall i :: 0 <= i < |a| ==> FoldCase(a[i]) == FoldCase(b[i]) {
      assert forall i :: 0 <= i < |a| ==> FoldString(a)[i] == FoldString(b)[i];
    }
  }

  // ---------------------------------------------------------------------
  // Decimal conversion
  // ---------------------------------------------------------------------

  /** The characters `QChar::isSpace` accepts in the Latin-1 range. */
  predicate IsSpace(c: char) {
    c == ' ' || (0x09 <= c as int <= 0x0D) || c as int == 0x85 || c as int == 0xA0
  }

  predicate IsDigit(c: char) {
    '0' <= c <= '9'
  }

  predicate AllDigits(s: string) {
    forall i :: 0 <= i < |s| ==> IsDigit(s[i])
  }

  /** Drops leading white space; the result is a suffix of the input that does not start with white space. */
  function TrimStart(s: string): (r: string)
    ensures |r| <= |s| && r == s[|s| - |r|..]
    ensures r == [] || !IsSpace(r[0])
  {
    if s != [] && IsSpace(s[0]) then TrimStart(s[1..]) else s
  }

  /** Drops trailing white space; the result is a prefix of the input that does not end with white space. */
  function TrimEnd(s: string): (r: string)
    ensures |r| <= |s| && r == s[..|r|]
    ensures r == [] || !IsSpace(r[|r| - 1])
  {
    if s != [] && IsSpace(s[|s| - 1]) then TrimEnd(s[..|s| - 1]) else s
  }

  function Trim(s: string): string {
    TrimEnd(TrimStart(s))
  }

  function DigitValue(c: char): nat
    requires IsDigit(c)
  {
    c as int - '0' as int
  }

  /** The value of a run of decimal digits, most significant first. */
  function DigitsValue(ds: string): nat
    requires AllDigits(ds)
  {
    if ds == [] then 0 else DigitsValue(ds[..|ds| - 1]) * 10 + DigitValue(ds[|ds| - 1])
  }

  /** An optional sign followed by at least one digit; anything else does not parse. */
  function ParseDecimal(s: string): Option<int> {
    if |s| > 0 && (s[0] == '-' || s[0] == '+') then
      var body := s[1..];
      if |body| > 0 && AllDigits(body) then
        var magnitude: int := DigitsValue(body);
        Some(if s[0] == '-' then -magnitude else magnitude)
      else None
    else if |s| > 0 && AllDigits(s) then Some(DigitsValue(s))
    else None
  }

  /**
   * `QString::toInt()`: surrounding white space is ignored; a string that is
   * not a decimal number, or whose value does not fit in an `int`, gives 0.
   */
  function ToInt(s: string): (r: int)
    ensures IsInt32(r)
  {
    match ParseDecimal(Trim(s))
    case Some(v) => if IsInt32(v) then v else 0
    case None => 0
  }

  function DigitChar(d: nat): (c: char)
    requires d < 10
    ensures IsDigit(c) && DigitValue(c) == d
  {
    ('0' as int + d) as char
  }

  /** The shortest decimal spelling of a natural number. */
  function Digits(n: nat): (r: string)
    ensures |r| > 0 && AllDigits(r)
  {
    if n < 10 then [DigitChar(n)] else Digits(n / 10) + [DigitChar(n % 10)]
  }

  /** `QString::number(n)`: a minus sign for negative numbers, then the digits. */
  function NumberToString(n: int): string {
    if n < 0 then "-" + Digits(-n) else Digits(n)
  }

  lemma {:induction false} DigitsRoundTrip(n: nat)
    ensures DigitsValue(Digits(n)) == n
  {
    if n >= 10 {
      var r := Digits(n);
      assert r[..|r| - 1] == Digits(n / 10);
      DigitsRoundTrip(n / 10);
    }
  }

  /** Reading back a number that `QString::number` wrote gives the number itself. */
  lemma NumberRoundTrip(n: int)
    requires IsInt32(n)
    ensures ToInt(NumberToString(n)) == n
  {
    var s := NumberToString(n);
    var ds := if n < 0 then Digits(-n) else Digits(n);
    assert !IsSpace(s[0]) && !IsSpace(s[|s| - 1]);
    assert TrimStart(s) == s;
    assert Trim(s) == s;
    DigitsRoundTrip(if n < 0 then -n else n);
    if n < 0 {
      assert s[1..] == ds;
    } else {
      assert s[0] != '-' && s[0] != '+';
    }
  }

  /** A string with no decimal digit in it is not a number, so `toInt` gives 0. */
  lemma NoDigitsGivesZero(s: string)
    requires forall i :: 0 <= i < |s| ==> !IsDigit(s[i])
    ensures ToInt(s) == 0
  {
    var u := TrimStart(s);
    var t := TrimEnd(u);
    assert forall i :: 0 <= i < |u| ==> u[i] == s[|s| - |u| + i];
    assert forall i :: 0 <= i < |t| ==> t[i] == u[i];
    if |t| > 1 {
      assert !IsDigit(t[1]);
      assert !AllDigits(t[1..]) by { assert t[1..][0] == t[1]; }
    }
    if |t| > 0 {
      assert !AllDigits(t) by { assert !IsDigit(t[0]); }
    }
    assert ParseDecimal(Trim(s)).None?;
  }
}
