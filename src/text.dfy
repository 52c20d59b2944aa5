/** Character classes and number <-> text conversions shared by the lexer,
    the parser and the interpreter's value formatting. A character here is
    a Unicode scalar value, where C# strings hold UTF-16 code units: a
    character outside the Basic Multilingual Plane is one character here
    and two in C#. */
module Text {
  import opened Wrappers

  /** `char.IsDigit`, restricted to the ASCII digits. */
  predicate IsDigit(c: char) {
    '0' <= c <= '9'
  }

  /** `char.IsLetter`, restricted to the ASCII letters. */
  predicate IsLetter(c: char) {
    'a' <= c <= 'z' || 'A' <= c <= 'Z'
  }

  predicate IsLetterOrDigit(c: char) {
    IsLetter(c) || IsDigit(c)
  }

  /** `char.IsWhiteSpace`: the Latin-1 white space and the Unicode space,
      line and paragraph separators. This is what `string.Trim` removes. */
  predicate IsWhiteSpace(c: char) {
    c == ' ' || '\t' <= c <= '\r' || c == '\U{0085}' || c == '\U{00A0}' ||
    c == '\U{1680}' || '\U{2000}' <= c <= '\U{200A}' || c == '\U{2028}' ||
    c == '\U{2029}' || c == '\U{202F}' || c == '\U{205F}' || c == '\U{3000}'
  }

  function DigitValue(c: char): (d: nat)
    requires IsDigit(c)
    ensures d < 10
  {
    (c - '0') as nat
  }

  function DigitChar(d: nat): (c: char)
    requires d < 10
    ensures IsDigit(c) && DigitValue(c) == d
  {
    ('0' as int + d) as char
  }

  predicate AllDigits(s: string) {
    forall i :: 0 <= i < |s| ==> IsDigit(s[i])
  }

  /** The value of a run of decimal digits, most significant first. */
  function DigitsValue(s: string): nat
    requires AllDigits(s)
  {
    if s == [] then 0 else 10 * DigitsValue(s[..|s| - 1]) + DigitValue(s[|s| - 1])
  }

  /** Decimal rendering of a natural number, as `int.ToString()` writes it. */
  function NatToString(n: nat): (s: string)
    ensures |s| > 0 && AllDigits(s)
  {
    if n < 10 then [DigitChar(n)] else NatToString(n / 10) + [DigitChar(n % 10)]
  }

  function IntToString(i: int): (s: string)
    ensures |s| > 0
    ensures forall j :: 0 <= j < |s| ==> s[j] == '-' || IsDigit(s[j])
  {
    if i < 0 then "-" + NatToString(-i) else NatToString(i)
  }

  /** Reading back what NatToString wrote gives the number again. */
  lemma {:induction false} NatToStringRoundTrip(n: nat)
    ensures DigitsValue(NatToString(n)) == n
  {
    if n >= 10 {
      var s := NatToString(n);
      NatToStringRoundTrip(n / 10);
      assert s[..|s| - 1] == NatToString(n / 10);
    }
  }

  /** Two different numbers never render the same way. */
  lemma {:induction false} NatToStringInjective(m: nat, n: nat)
    requires NatToString(m) == NatToString(n)
    ensures m == n
  {
    NatToStringRoundTrip(m);
    NatToStringRoundTrip(n);
  }

  function Pow10(k: nat): (p: nat)
    ensures p >= 1
  {
    if k == 0 then 1 else 10 * Pow10(k - 1)
  }

  /** Index of the first '.' in `s`, or |s| when there is none. */
  function FirstDot(s: string): (k: nat)
    ensures k <= |s|
    ensures forall i :: 0 <= i < k ==> s[i] != '.'
    ensures k < |s| ==> s[k] == '.'
  {
    if s == [] then 0 else if s[0] == '.' then 0 else 1 + FirstDot(s[1..])
  }

  /** An unsigned decimal: digits, optionally one '.', more digits, at least
      one digit in all. This is the fixed-point subset of `double.TryParse`. */
  function ParseUnsignedDecimal(s: string): (r: Option<real>)
    ensures r.Some? ==> r.value >= 0.0
  {
    var k := FirstDot(s);
    var whole := s[..k];
    var frac := if k < |s| then s[k + 1..] else "";
    if |whole| + |frac| > 0 && AllDigits(whole) && AllDigits(frac) then
      Some(DigitsValue(whole) as real + DigitsValue(frac) as real / Pow10(|frac|) as real)
    else
      None
  }

  /** A rendered natural number reads back as that number. */
  lemma {:induction false} ParseNatString(n: nat)
    ensures ParseUnsignedDecimal(NatToString(n)) == Some(n as real)
  {
    var s := NatToString(n);
    assert forall i :: 0 <= i < |s| ==> s[i] != '.';
    assert s[..|s|] == s;
    NatToStringRoundTrip(n);
  }

  /** A signed decimal, as `double.Parse` accepts it when converting a string:
      an optional '+' or '-' followed by an unsigned decimal. */
  function ParseDecimal(s: string): (r: Option<real>)
  {
    if |s| > 0 && (s[0] == '-' || s[0] == '+') then
      match ParseUnsignedDecimal(s[1..])
      case Some(v) => Some(if s[0] == '-' then -v else v)
      case None => None
    else
      ParseUnsignedDecimal(s)
  }

  /** A signed integer, as `int.Parse` accepts it: an optional sign and digits. */
  function ParseInteger(s: string): (r: Option<int>)
    ensures r.Some? && |s| > 0 && s[0] != '-' ==> r.value >= 0
  {
    if |s| > 0 && (s[0] == '-' || s[0] == '+') then
      if |s| > 1 && AllDigits(s[1..]) then
        Some(if s[0] == '-' then -(DigitsValue(s[1..]) as int) else DigitsValue(s[1..]))
      else None
    else if |s| > 0 && AllDigits(s) then Some(DigitsValue(s))
    else None
  }

  /** Every rendered integer parses back to itself. */
  lemma {:induction false} ParseIntegerRoundTrip(i: int)
    ensures ParseInteger(IntToString(i)) == Some(i)
  {
    var s := IntToString(i);
    if i < 0 {
      assert s[0] == '-' && s[1..] == NatToString(-i);
      NatToStringRoundTrip(-i);
    } else {
      assert IsDigit(s[0]);
      NatToStringRoundTrip(i);
    }
  }

  /** The white space `Convert.ToDouble` and `Convert.ToInt32` allow around
      a number in a string (`NumberStyles.AllowLeadingWhite` and
      `AllowTrailingWhite`): U+0009 to U+000D and the space. */
  predicate IsNumberSpace(c: char) {
    c == ' ' || '\t' <= c <= '\r'
  }

  predicate AllNumberSpace(s: string) {
    forall i :: 0 <= i < |s| ==> IsNumberSpace(s[i])
  }

  /** The text of a number with that white space removed at both ends. */
  function StripNumberSpace(s: string): (r: string)
    ensures |r| <= |s|
    ensures r == [] || (!IsNumberSpace(r[0]) && !IsNumberSpace(r[|r| - 1]))
    decreases |s|
  {
    if s != [] && IsNumberSpace(s[0]) then StripNumberSpace(s[1..])
    else if s != [] && IsNumberSpace(s[|s| - 1]) then StripNumberSpace(s[..|s| - 1])
    else s
  }

  /** Stripping removes exactly the padding: text that neither starts nor
      ends with white space comes back whatever white space surrounds it. */
  lemma {:induction false} StripPadded(pre: string, t: string, post: string)
    requires AllNumberSpace(pre) && AllNumberSpace(post)
    requires t == [] || (!IsNumberSpace(t[0]) && !IsNumberSpace(t[|t| - 1]))
    ensures StripNumberSpace(pre + t + post) == t
    decreases |pre| + |post|
  {
    var s := pre + t + post;
    if pre != [] {
      assert s[0] == pre[0];
      assert s[1..] == pre[1..] + t + post;
      StripPadded(pre[1..], t, post);
    } else if post != [] {
      assert s == t + post;
      if t != [] {
        assert s[0] == t[0];
      } else {
        assert s[0] == post[0];
        assert s[1..] == [] + t + post[1..];
        StripPadded([], t, post[1..]);
        return;
      }
      assert s[|s| - 1] == post[|post| - 1];
      assert s[..|s| - 1] == [] + t + post[..|post| - 1];
      StripPadded([], t, post[..|post| - 1]);
    } else {
      assert s == t;
    }
  }

  /** Text as `Convert.ToDouble` reads it: a decimal with white space
      allowed around it. */
  function ParseNumberText(s: string): Option<real> {
    ParseDecimal(StripNumberSpace(s))
  }

  /** Text as `Convert.ToInt32` reads it: an integer with white space
      allowed around it. */
  function ParseIntegerText(s: string): Option<int> {
    ParseInteger(StripNumberSpace(s))
  }

  /** The decimal text of any integer reads back as that number. */
  lemma {:induction false} ParseDecimalIntString(k: int)
    ensures ParseDecimal(IntToString(k)) == Some(k as real)
  {
    var t := IntToString(k);
    if k < 0 {
      assert t[0] == '-' && t[1..] == NatToString(-k);
      ParseNatString(-k);
    } else {
      assert IsDigit(t[0]);
      ParseNatString(k);
    }
  }

  /** The text `IntToString` writes carries no white space at either end. */
  lemma {:induction false} IntToStringUnpadded(i: int)
    ensures var s := IntToString(i); !IsNumberSpace(s[0]) && !IsNumberSpace(s[|s| - 1])
  {
    var s := IntToString(i);
    assert s[0] == '-' || IsDigit(s[0]);
    assert s[|s| - 1] == '-' || IsDigit(s[|s| - 1]);
  }

  /** `ToLower` on ASCII: upper-case letters A-Z become a-z, nothing else
      changes. The culture-dependent mappings of other letters are not
      modelled. */
  function ToLower(s: string): (r: string)
    ensures |r| == |s|
    ensures forall i :: 0 <= i < |s| ==>
      r[i] == (if 'A' <= s[i] <= 'Z' then (s[i] as int + 32) as char else s[i])
  {
    if s == [] then [] else ToLower(s[..|s| - 1]) + [LowerChar(s[|s| - 1])]
  }

  function LowerChar(c: char): char {
    if 'A' <= c <= 'Z' then (c as int + 32) as char else c
  }

  /** Text with no capital letter is already lower case. */
  lemma {:induction false} LowerWithoutCapitals(s: string)
    requires forall i :: 0 <= i < |s| ==> !('A' <= s[i] <= 'Z')
    ensures ToLower(s) == s
  {
    var r := ToLower(s);
    assert forall i :: 0 <= i < |s| ==> r[i] == s[i];
  }
}
