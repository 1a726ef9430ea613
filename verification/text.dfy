/** String helpers that the dashboard applies to user input: JavaScript's
    `String.prototype.trim`, the `replace(/[^0-9]/g, '')` digit filter, the
    `includes` substring test and `String(n)` for integers. */
module Text {

  /** The characters `trim()` removes: ECMAScript WhiteSpace (tab, vertical tab,
      form feed, zero-width no-break space and every Unicode space separator)
      and LineTerminator (LF, CR, LS, PS). */
  predicate IsWhitespace(c: char): (r: bool)
    ensures c < '\U{0080}' ==> (r <==> c in "\t\n\U{000B}\U{000C}\r ")
    ensures r ==> c != '\U{200B}'
  {
    || c == '\t' || c == '\n' || c == '\U{000B}' || c == '\U{000C}' || c == '\r'
    || c == ' ' || c == '\U{00A0}' || c == '\U{1680}'
    || ('\U{2000}' <= c <= '\U{200A}')
    || c == '\U{2028}' || c == '\U{2029}' || c == '\U{202F}' || c == '\U{205F}'
    || c == '\U{3000}' || c == '\U{FEFF}'
  }

  predicate AllWhitespace(s: string) {
    forall k :: 0 <= k < |s| ==> IsWhitespace(s[k])
  }

  /** Index of the first character at or after `k` that is not whitespace,
      or `|s|` when there is none. */
  function SkipStart(s: string, k: nat): (n: nat)
    requires k <= |s|
    ensures k <= n <= |s|
    ensures forall j :: k <= j < n ==> IsWhitespace(s[j])
    ensures n == |s| || !IsWhitespace(s[n])
    decreases |s| - k
  {
    if k < |s| && IsWhitespace(s[k]) then SkipStart(s, k + 1) else k
  }

  /** End of `s[lo..m]` once its trailing whitespace is dropped. */
  function SkipEnd(s: string, lo: nat, m: nat): (e: nat)
    requires lo <= m <= |s|
    ensures lo <= e <= m
    ensures forall j :: e <= j < m ==> IsWhitespace(s[j])
    ensures e == lo || !IsWhitespace(s[e - 1])
  {
    if lo < m && IsWhitespace(s[m - 1]) then SkipEnd(s, lo, m - 1) else m
  }

  /** `s.trim()`: neither starts nor ends with whitespace (`TrimSlice` says
      it is the slice of `s` between the whitespace cut off at each end). */
  function Trim(s: string): (r: string)
    ensures |r| <= |s|
    ensures r == [] || (!IsWhitespace(r[0]) && !IsWhitespace(r[|r| - 1]))
  {
    var i := SkipStart(s, 0);
    s[i..SkipEnd(s, i, |s|)]
  }

  /** What `Trim` keeps is the slice `s[i..i + |Trim(s)|]`, and everything cut
      off on either side of it is whitespace. */
  lemma TrimSlice(s: string)
    ensures var i, r := SkipStart(s, 0), Trim(s);
            && i + |r| <= |s| && r == s[i..i + |r|]
            && AllWhitespace(s[..i]) && AllWhitespace(s[i + |r|..])
  {
    var i := SkipStart(s, 0);
    var e := SkipEnd(s, i, |s|);
    assert Trim(s) == s[i..e];
    forall k | 0 <= k < i ensures IsWhitespace(s[..i][k]) {
      assert s[..i][k] == s[k];
    }
    forall k | 0 <= k < |s| - e ensures IsWhitespace(s[e..][k]) {
      assert s[e..][k] == s[e + k];
    }
  }

  /** `!s.trim()` in the source: the trimmed text is empty. `BlankIff` says
      this is exactly when every character of `s` is whitespace. */
  predicate IsBlank(s: string): (r: bool)
    ensures s == [] ==> r
    ensures s != [] && !IsWhitespace(s[0]) ==> !r
  {
    Trim(s) == []
  }

  lemma BlankIff(s: string)
    ensures IsBlank(s) <==> AllWhitespace(s)
  {
    var i := SkipStart(s, 0);
    var e := SkipEnd(s, i, |s|);
    var r := Trim(s);
    assert r == s[i..e];
    if r == [] {
      assert e == i;
      forall k | 0 <= k < |s| ensures IsWhitespace(s[k]) {
      }
    } else {
      assert s[i] == r[0];
    }
  }

  /** Trimming twice gives the same text as trimming once. */
  lemma TrimIdempotent(s: string)
    ensures Trim(Trim(s)) == Trim(s)
  {
    var r := Trim(s);
    assert SkipStart(r, 0) == 0;
    assert SkipEnd(r, 0, |r|) == |r|;
    assert r[0..|r|] == r;
  }

  predicate IsDigit(c: char) {
    '0' <= c <= '9'
  }

  predicate AllDigits(s: string) {
    forall k :: 0 <= k < |s| ==> IsDigit(s[k])
  }

  /** `s.replace(/[^0-9]/g, '')`: the ASCII digits of `s`, in order. */
  function Digits(s: string): (r: string)
    ensures AllDigits(r)
    ensures |r| <= |s|
  {
    if s == [] then []
    else (if IsDigit(s[0]) then [s[0]] else []) + Digits(s[1..])
  }

  /** The digit filter distributes over concatenation, so it keeps the digits
      of each part in their original order. */
  lemma {:induction false} DigitsAppend(a: string, b: string)
    ensures Digits(a + b) == Digits(a) + Digits(b)
  {
    if a == [] {
      assert a + b == b;
    } else {
      var head := if IsDigit(a[0]) then [a[0]] else [];
      assert (a + b)[0] == a[0] && (a + b)[1..] == a[1..] + b;
      assert Digits(a + b) == head + Digits(a[1..] + b);
      DigitsAppend(a[1..], b);
      assert Digits(a) == head + Digits(a[1..]);
    }
  }

  /** A string of digits is kept whole. */
  lemma {:induction false} DigitsOfDigits(s: string)
    requires AllDigits(s)
    ensures Digits(s) == s
  {
    if s != [] {
      DigitsOfDigits(s[1..]);
    }
  }

  /** A string without digits normalises to the empty string. */
  lemma {:induction false} DigitsOfNonDigits(s: string)
    requires forall k :: 0 <= k < |s| ==> !IsDigit(s[k])
    ensures Digits(s) == []
  {
    if s != [] {
      DigitsOfNonDigits(s[1..]);
    }
  }

  /** Normalising twice is normalising once. */
  lemma DigitsIdempotent(s: string)
    ensures Digits(Digits(s)) == Digits(s)
  {
    DigitsOfDigits(Digits(s));
  }

  /** `s.includes(p)`: some position of `s` starts a copy of `p`. */
  function Includes(s: string, p: string): (r: bool)
    ensures p <= s ==> r
    ensures r ==> |p| <= |s|
    decreases |s|
  {
    if p <= s then true
    else if s == [] then false
    else Includes(s[1..], p)
  }

  ghost predicate OccursAt(s: string, p: string, i: int) {
    0 <= i <= |s| - |p| && s[i..i + |p|] == p
  }

  /** `Includes` is the substring relation. */
  lemma {:induction false} IncludesIff(s: string, p: string)
    ensures Includes(s, p) <==> exists i :: OccursAt(s, p, i)
    decreases |s|
  {
    if p <= s {
      assert OccursAt(s, p, 0);
    } else if s == [] {
      assert p != [];
    } else {
      IncludesIff(s[1..], p);
      forall i | OccursAt(s[1..], p, i) ensures OccursAt(s, p, i + 1) {
        assert s[1..][i..i + |p|] == s[i + 1..i + 1 + |p|];
      }
      assert OccursAt(s, p, 0) ==> p <= s;
      forall i | OccursAt(s, p, i) ensures OccursAt(s[1..], p, i - 1) {
        assert s[1..][i - 1..i - 1 + |p|] == s[i..i + |p|];
      }
    }
  }

  /** Every string includes the empty string. */
  lemma IncludesEmpty(s: string)
    ensures Includes(s, [])
  {
    assert [] <= s;
  }

  function DigitChar(d: nat): (c: char)
    requires d < 10
    ensures IsDigit(c)
  {
    ['0', '1', '2', '3', '4', '5', '6', '7', '8', '9'][d]
  }

  function DigitValue(c: char): nat
    requires IsDigit(c)
  {
    (c as int - '0' as int) as nat
  }

  /** Decimal numeral of a natural number, without leading zeros. */
  function NatToString(n: nat): (r: string)
    ensures |r| > 0 && AllDigits(r)
    ensures |r| > 1 ==> r[0] != '0'
  {
    if n < 10 then [DigitChar(n)]
    else NatToString(n / 10) + [DigitChar(n % 10)]
  }

  /** `String(n)` for an integer: an optional minus sign, then the digits. */
  function IntToString(n: int): (r: string)
    ensures |r| > 0 && (r[0] == '-' <==> n < 0)
  {
    if n < 0 then "-" + NatToString(-n) else NatToString(n)
  }

  /** Value of a string of decimal digits. */
  function DecimalValue(s: string): nat
    requires AllDigits(s)
  {
    if s == [] then 0 else DecimalValue(s[..|s| - 1]) * 10 + DigitValue(s[|s| - 1])
  }

  /** An optional minus sign followed by decimal digits. */
  predicate IsNumeral(s: string) {
    (|s| > 0 && s[0] == '-' && AllDigits(s[1..])) || AllDigits(s)
  }

  /** Reads back what `IntToString` writes. */
  function ParseInt(s: string): int
    requires IsNumeral(s)
  {
    if |s| > 0 && s[0] == '-' then -(DecimalValue(s[1..]) as int) else DecimalValue(s)
  }

  lemma {:induction false} NatToStringValue(n: nat)
    ensures DecimalValue(NatToString(n)) == n
  {
    if n >= 10 {
      NatToStringValue(n / 10);
      var s := NatToString(n);
      assert s[..|s| - 1] == NatToString(n / 10);
    }
  }

  /** `String(n)` loses nothing: reading the numeral back gives `n`. */
  lemma IntToStringRoundTrip(n: int)
    ensures IsNumeral(IntToString(n)) && ParseInt(IntToString(n)) == n
  {
    if n < 0 {
      NegativeRoundTrip(n);
    } else {
      var s := NatToString(n);
      NatToStringValue(n);
      assert IsDigit(s[0]);
    }
  }

  lemma NegativeRoundTrip(n: int)
    requires n < 0
    ensures IsNumeral(IntToString(n)) && ParseInt(IntToString(n)) == n
  {
    var d := NatToString(-n);
    NatToStringValue(-n);
    var s := IntToString(n);
    assert s == "-" + d;
    assert s[1..] == d;
    assert IsNumeral(s);
    assert ParseInt(s) == -(DecimalValue(d) as int);
    assert DecimalValue(d) == -n;
  }
}
