/** The parts of the Java string library that the census line parser relies on:
    String.substring, String.trim and Integer.parseInt, plus decimal rendering
    of a natural number (the inverse that Integer.parseInt is checked against). */
module JavaText {
  import opened Wrappers
  import opened Exceptions

  const IntMin: int := -0x8000_0000
  const IntMax: int := 0x7FFF_FFFF

  /** The range of a Java `int`. */
  predicate IsInt32(x: int) {
    IntMin <= x <= IntMax
  }

  /** String.substring(begin, end): the characters in [begin, end), or
      StringIndexOutOfBoundsException when the range does not fit the string. */
  function Substring(s: string, begin: int, end: int): (r: Result<string, CensusError>)
    ensures r.Success? <==> 0 <= begin <= end <= |s|
    ensures r.Success? ==> |r.value| == end - begin
    ensures r.Failure? ==> r.error == StringIndexOutOfBounds(begin, end, |s|)
  {
    if begin < 0 || end > |s| || begin > end then
      Failure(StringIndexOutOfBounds(begin, end, |s|))
    else
      Success(s[begin..end])
  }

  /** String.trim treats every character up to and including the space as blank. */
  predicate IsBlank(c: char) {
    c <= ' '
  }

  function TrimLeading(s: string): string {
    if |s| > 0 && IsBlank(s[0]) then TrimLeading(s[1..]) else s
  }

  function TrimTrailing(s: string): string {
    if |s| > 0 && IsBlank(s[|s| - 1]) then TrimTrailing(s[..|s| - 1]) else s
  }

  /** String.trim: drop blank characters from both ends. */
  function Trim(s: string): (t: string)
    ensures |t| <= |s|
    ensures |t| > 0 ==> !IsBlank(t[0]) && !IsBlank(t[|t| - 1])
  {
    TrimEndsNonBlank(s);
    TrimTrailing(TrimLeading(s))
  }

  lemma {:induction false} TrimEndsNonBlank(s: string)
    ensures |TrimLeading(s)| <= |s|
    ensures |TrimLeading(s)| > 0 ==> !IsBlank(TrimLeading(s)[0])
    ensures |TrimTrailing(TrimLeading(s))| <= |TrimLeading(s)|
    ensures var t := TrimTrailing(TrimLeading(s));
            |t| > 0 ==> !IsBlank(t[0]) && !IsBlank(t[|t| - 1])
  {
    TrimLeadingProps(s);
    TrimTrailingProps(TrimLeading(s));
  }

  lemma {:induction false} TrimLeadingProps(s: string)
    ensures |TrimLeading(s)| <= |s|
    ensures |TrimLeading(s)| > 0 ==> !IsBlank(TrimLeading(s)[0])
  {
    if |s| > 0 && IsBlank(s[0]) {
      TrimLeadingProps(s[1..]);
    }
  }

  /** Trimming from the right keeps a prefix, so a non-blank first character stays. */
  lemma {:induction false} TrimTrailingProps(s: string)
    ensures var t := TrimTrailing(s);
            |t| <= |s| && t == s[..|t|] && (|t| > 0 ==> !IsBlank(t[|t| - 1]))
  {
    if |s| > 0 && IsBlank(s[|s| - 1]) {
      TrimTrailingProps(s[..|s| - 1]);
    }
  }

  /** Trim recovers any text with non-blank ends from any blank padding around it. */
  lemma {:induction false} TrimPadded(pre: string, t: string, post: string)
    requires forall i :: 0 <= i < |pre| ==> IsBlank(pre[i])
    requires forall i :: 0 <= i < |post| ==> IsBlank(post[i])
    requires |t| > 0 && !IsBlank(t[0]) && !IsBlank(t[|t| - 1])
    ensures Trim(pre + t + post) == t
  {
    TrimLeadingBlanks(pre, t + post);
    assert pre + t + post == pre + (t + post);
    TrimTrailingBlanks(t, post);
  }

  lemma {:induction false} TrimLeadingBlanks(pre: string, s: string)
    requires forall i :: 0 <= i < |pre| ==> IsBlank(pre[i])
    requires |s| > 0 && !IsBlank(s[0])
    ensures TrimLeading(pre + s) == s
  {
    if pre == [] {
      assert pre + s == s;
    } else {
      assert (pre + s)[1..] == pre[1..] + s;
      TrimLeadingBlanks(pre[1..], s);
    }
  }

  lemma {:induction false} TrimTrailingBlanks(s: string, post: string)
    requires forall i :: 0 <= i < |post| ==> IsBlank(post[i])
    requires |s| > 0 && !IsBlank(s[|s| - 1])
    ensures TrimTrailing(s + post) == s
  {
    if post == [] {
      assert s + post == s;
    } else {
      assert (s + post)[..|s + post| - 1] == s + post[..|post| - 1];
      TrimTrailingBlanks(s, post[..|post| - 1]);
    }
  }

  predicate IsDigit(c: char) {
    '0' <= c <= '9'
  }

  predicate AllDigits(s: string) {
    forall i :: 0 <= i < |s| ==> IsDigit(s[i])
  }

  /** The value of a string of decimal digits, most significant first. */
  function DigitsValue(s: string): nat
    requires AllDigits(s)
  {
    if s == [] then 0
    else DigitsValue(s[..|s| - 1]) * 10 + ((s[|s| - 1] as int) - ('0' as int))
  }

  /** Integer.parseInt(s) in radix 10: an optional sign, at least one digit,
      and a value that fits a Java `int`; anything else is NumberFormatException. */
  function ParseInt(s: string): (r: Result<int, CensusError>)
    ensures r.Success? ==> IsInt32(r.value)
    ensures r.Failure? ==> r.error == NumberFormat(s)
  {
    if |s| == 0 then Failure(NumberFormat(s))
    else
      var start := if s[0] == '-' || s[0] == '+' then 1 else 0;
      var digits := s[start..];
      if |digits| == 0 || !AllDigits(digits) then Failure(NumberFormat(s))
      else
        var magnitude: int := DigitsValue(digits);
        var v: int := if s[0] == '-' then -magnitude else magnitude;
        if IsInt32(v) then Success(v) else Failure(NumberFormat(s))
  }

  function DigitChar(d: nat): (c: char)
    requires d < 10
  {
    ('0' as int + d) as char
  }

  /** The shortest decimal rendering of n, as Integer.toString gives it. */
  function Decimal(n: nat): (s: string)
    ensures |s| > 0 && AllDigits(s)
    ensures DigitsValue(s) == n
    ensures n > 0 ==> s[0] != '0'
  {
    if n < 10 then [DigitChar(n)]
    else
      var prefix := Decimal(n / 10);
      var s := prefix + [DigitChar(n % 10)];
      assert s[..|s| - 1] == prefix;
      s
  }

  function Pow10(k: nat): (p: nat)
    ensures p >= 1
  {
    if k == 0 then 1 else 10 * Pow10(k - 1)
  }

  /** A number below 10^w needs at most w digits. */
  lemma {:induction false} DecimalWidth(n: nat, w: nat)
    requires w >= 1 && n < Pow10(w)
    ensures |Decimal(n)| <= w
  {
    if n >= 10 {
      DecimalWidth(n / 10, w - 1);
    }
  }

  /** Integer.parseInt reads back every non-negative `int` rendered in decimal. */
  lemma ParseIntDecimal(n: nat)
    requires n <= IntMax
    ensures ParseInt(Decimal(n)) == Success(n)
  {
    var s := Decimal(n);
    assert s[0] != '-' && s[0] != '+' by { assert IsDigit(s[0]); }
    assert s[0..] == s;
  }

  /** `k` spaces. */
  function Spaces(k: nat): (s: string)
    ensures |s| == k && forall i :: 0 <= i < k ==> s[i] == ' '
  {
    seq(k, _ => ' ')
  }

  /** Right-align s in a field of width w (String.format("%wd")-style). */
  function PadLeft(s: string, w: nat): (r: string)
    requires |s| <= w
    ensures |r| == w
  {
    Spaces(w - |s|) + s
  }

  /** A right-aligned decimal field trims back to the number. */
  lemma PadLeftDecimalField(n: nat, w: nat)
    requires w >= 1 && n < Pow10(w) && n <= IntMax
    ensures |Decimal(n)| <= w
    ensures ParseInt(Trim(PadLeft(Decimal(n), w))) == Success(n)
  {
    DecimalWidth(n, w);
    var d := Decimal(n);
    assert IsDigit(d[0]) && IsDigit(d[|d| - 1]);
    TrimPadded(Spaces(w - |d|), d, []);
    assert Spaces(w - |d|) + d + [] == PadLeft(d, w);
    ParseIntDecimal(n);
  }
}
