/** The Python text primitives the configuration code relies on: `int(text)`
    in base 10, `str(n)` for integers, and `text.split(sep)` with an explicit
    one-character separator. */
module PythonText {
  import opened Wrappers

  /** The ASCII characters `int()` skips around a literal: tab, line feed,
      vertical tab, form feed, carriage return and space. */
  predicate IsSpace(c: char) {
    9 <= c as int <= 13 || c == ' '
  }

  predicate IsDigit(c: char) {
    '0' <= c <= '9'
  }

  function DigitValue(c: char): (d: nat)
    requires IsDigit(c)
    ensures d < 10
  {
    c as int - '0' as int
  }

  function DigitChar(d: nat): (c: char)
    requires d < 10
    ensures IsDigit(c) && DigitValue(c) == d
  {
    ('0' as int + d) as char
  }

  predicate AllDigits(s: string) {
    forall i :: 0 <= i < |s| ==> IsDigit(s[i])
  }

  /** The number a run of decimal digits denotes, most significant digit first. */
  function DecimalValue(s: string): nat
    requires AllDigits(s)
    decreases |s|
  {
    if |s| == 0 then 0 else 10 * DecimalValue(s[..|s| - 1]) + DigitValue(s[|s| - 1])
  }

  // ---------------------------------------------------------------------------
  // Stripping surrounding whitespace

  /** Every character of `s` from `lo` up to `hi` is whitespace. */
  predicate SpacesIn(s: string, lo: int, hi: int)
    requires 0 <= lo && hi <= |s|
  {
    forall k :: lo <= k < hi ==> IsSpace(s[k])
  }

  /** The index of the first character at or after `k` that is not
      whitespace, or `|s|` if there is none. */
  function SkipSpaces(s: string, k: nat): (n: nat)
    requires k <= |s|
    ensures k <= n <= |s|
    ensures SpacesIn(s, k, n)
    ensures n < |s| ==> !IsSpace(s[n])
    decreases |s| - k
  {
    if k < |s| && IsSpace(s[k]) then SkipSpaces(s, k + 1) else k
  }

  /** The end of `s[lo..k]` once its trailing whitespace is cut off. */
  function TrimSpaces(s: string, lo: nat, k: nat): (n: nat)
    requires lo <= k <= |s|
    ensures lo <= n <= k
    ensures SpacesIn(s, n, k)
    ensures n > lo ==> !IsSpace(s[n - 1])
    decreases k
  {
    if k > lo && IsSpace(s[k - 1]) then TrimSpaces(s, lo, k - 1) else k
  }

  /** `s.strip()` for ASCII whitespace. */
  function Strip(s: string): string {
    var i := SkipSpaces(s, 0);
    s[i..TrimSpaces(s, i, |s|)]
  }

  // ---------------------------------------------------------------------------
  // int(text)

  /** A magnitude as `int()` accepts it: digits, where a single underscore may
      separate two digits. */
  predicate IsDigitRun(s: string) {
    && |s| > 0
    && IsDigit(s[0])
    && IsDigit(s[|s| - 1])
    && (forall i :: 0 <= i < |s| ==> IsDigit(s[i]) || s[i] == '_')
    && (forall i :: 0 <= i < |s| - 1 ==> s[i] == '_' ==> s[i + 1] != '_')
  }

  function DropUnderscores(s: string): (r: string)
    requires forall i :: 0 <= i < |s| ==> IsDigit(s[i]) || s[i] == '_'
    ensures AllDigits(r)
    ensures AllDigits(s) ==> r == s
    decreases |s|
  {
    if |s| == 0 then ""
    else (if s[0] == '_' then "" else [s[0]]) + DropUnderscores(s[1..])
  }

  /** An optional `+` or `-` followed by a digit run. */
  predicate IsSignedRun(s: string) {
    IsDigitRun(s) || (|s| > 0 && (s[0] == '+' || s[0] == '-') && IsDigitRun(s[1..]))
  }

  /** The integer a signed digit run denotes. */
  function SignedRunValue(s: string): int
    requires IsSignedRun(s)
  {
    if IsDigitRun(s) then DecimalValue(DropUnderscores(s))
    else
      var magnitude: int := DecimalValue(DropUnderscores(s[1..]));
      if s[0] == '-' then -magnitude else magnitude
  }

  /** `text` is an integer literal whose sign and digits are `text[i..j]`,
      with nothing but whitespace before and after. */
  predicate LiteralAt(text: string, i: int, j: int) {
    && 0 <= i <= j <= |text|
    && SpacesIn(text, 0, i)
    && SpacesIn(text, j, |text|)
    && IsSignedRun(text[i..j])
  }

  /** `int(text)`: `None` exactly where Python raises `ValueError`. It
      accepts exactly the texts that are a signed digit run between
      whitespace, and yields that run's value. */
  function ParseInt(text: string): (r: Option<int>)
    ensures r.Some? <==> exists i, j :: LiteralAt(text, i, j)
    ensures forall i, j :: LiteralAt(text, i, j) ==> r == Some(SignedRunValue(text[i..j]))
  {
    StrippedLiteral(text);
    LiteralsParse(text);
    ParseSigned(Strip(text))
  }

  /** The literal left once surrounding whitespace is stripped: an optional
      sign followed by a digit run. */
  function ParseSigned(t: string): (r: Option<int>)
    ensures r.Some? <==> IsSignedRun(t)
    ensures r.Some? ==> r.value == SignedRunValue(t)
  {
    if |t| == 0 then None
    else
      var digits := if t[0] == '-' || t[0] == '+' then t[1..] else t;
      if !IsDigitRun(digits) then None
      else
        var magnitude: int := DecimalValue(DropUnderscores(digits));
        Some(if t[0] == '-' then -magnitude else magnitude)
  }

  /** A signed run starts with a sign or a digit and ends with a digit, so
      stripping never eats into it. */
  lemma SignedRunEnds(s: string)
    requires IsSignedRun(s)
    ensures |s| > 0 && !IsSpace(s[0]) && !IsSpace(s[|s| - 1])
  {
    if !IsDigitRun(s) {
      assert s[|s| - 1] == s[1..][|s| - 2];
    }
  }

  /** Stripping a literal leaves exactly its signed digit run: the first
      non-space is where the run starts, and the last is where it ends. */
  lemma StripOfLiteral(text: string, i: int, j: int)
    requires LiteralAt(text, i, j)
    ensures Strip(text) == text[i..j]
  {
    SignedRunEnds(text[i..j]);
    assert !IsSpace(text[i]) && !IsSpace(text[j - 1]) by {
      assert text[i] == text[i..j][0];
      assert text[j - 1] == text[i..j][j - i - 1];
    }
    assert SkipSpaces(text, 0) == i;
    assert TrimSpaces(text, i, |text|) == j;
  }

  lemma LiteralsParse(text: string)
    ensures forall i, j :: LiteralAt(text, i, j) ==> ParseSigned(Strip(text)) == Some(SignedRunValue(text[i..j]))
  {
    forall i, j | LiteralAt(text, i, j)
      ensures ParseSigned(Strip(text)) == Some(SignedRunValue(text[i..j]))
    {
      StripOfLiteral(text, i, j);
    }
  }

  /** Whatever survives stripping sits between whitespace in the text. */
  lemma StrippedLiteral(text: string)
    ensures ParseSigned(Strip(text)).Some? ==> exists i, j :: LiteralAt(text, i, j)
  {
    var i := SkipSpaces(text, 0);
    var j := TrimSpaces(text, i, |text|);
    if ParseSigned(Strip(text)).Some? {
      assert LiteralAt(text, i, j);
    }
  }

  // ---------------------------------------------------------------------------
  // str(n)

  /** The decimal digits of `n`, without leading zeros. */
  function Digits(n: nat): (s: string)
    ensures |s| > 0 && AllDigits(s)
    decreases n
  {
    if n < 10 then [DigitChar(n)] else Digits(n / 10) + [DigitChar(n % 10)]
  }

  /** `str(n)` for an integer. */
  function FormatInt(n: int): (s: string)
    ensures |s| > 0
    ensures n >= 0 ==> AllDigits(s)
    ensures n < 0 ==> s[0] == '-' && AllDigits(s[1..])
  {
    if n < 0 then "-" + Digits(-n) else Digits(n)
  }

  lemma {:induction false} DigitsValue(n: nat)
    ensures DecimalValue(Digits(n)) == n
    decreases n
  {
    if n >= 10 {
      var s := Digits(n);
      assert s[..|s| - 1] == Digits(n / 10);
      DigitsValue(n / 10);
    }
  }

  lemma DigitsAreRun(s: string)
    requires |s| > 0 && AllDigits(s)
    ensures IsDigitRun(s) && SignedRunValue(s) == DecimalValue(s)
  {
  }

  /** `str(n)` is a signed digit run denoting `n`. */
  lemma FormatIsSignedRun(n: int)
    ensures IsSignedRun(FormatInt(n)) && SignedRunValue(FormatInt(n)) == n
  {
    var s := FormatInt(n);
    if n < 0 {
      DigitsValue(-n);
      assert s[1..] == Digits(-n);
      DigitsAreRun(s[1..]);
      assert !IsDigitRun(s);
    } else {
      DigitsValue(n);
      DigitsAreRun(s);
    }
  }

  /** `int(str(n)) == n` for every integer. */
  lemma ParseFormatRoundTrip(n: int)
    ensures ParseInt(FormatInt(n)) == Some(n)
  {
    var s := FormatInt(n);
    FormatIsSignedRun(n);
    assert s[0..|s|] == s;
    assert LiteralAt(s, 0, |s|);
  }

  /** A character `int()` can accept: a digit, an underscore, a sign or
      whitespace. */
  predicate IsLiteralChar(c: char) {
    IsDigit(c) || c == '_' || c == '+' || c == '-' || IsSpace(c)
  }

  lemma LiteralCharAt(text: string, i: int, j: int, k: int)
    requires LiteralAt(text, i, j)
    requires 0 <= k < |text|
    ensures IsLiteralChar(text[k])
  {
    if i <= k < j {
      var run := text[i..j];
      assert text[k] == run[k - i];
      if !IsDigitRun(run) && k > i {
        assert run[k - i] == run[1..][k - i - 1];
      }
    }
  }

  /** A text `int()` accepts holds only digits, underscores, signs and
      whitespace: any other character, such as the `a` of `"12a"`, makes it
      raise. */
  lemma ParsedTextIsLiteralChars(text: string)
    ensures ParseInt(text).Some? ==> forall k :: 0 <= k < |text| ==> IsLiteralChar(text[k])
  {
    if ParseInt(text).Some? {
      var i, j :| LiteralAt(text, i, j);
      forall k | 0 <= k < |text|
        ensures IsLiteralChar(text[k])
      {
        LiteralCharAt(text, i, j, k);
      }
    }
  }

  /** A text that `int()` accepts never contains a comma. */
  lemma ParsedTextHasNoComma(text: string)
    ensures ParseInt(text).Some? ==> ',' !in text
  {
    ParsedTextIsLiteralChars(text);
  }

  // ---------------------------------------------------------------------------
  // text.split(sep)

  /** Number of occurrences of `c` in `s`. */
  function Count(s: string, c: char): nat
    decreases |s|
  {
    if |s| == 0 then 0 else (if s[0] == c then 1 else 0) + Count(s[1..], c)
  }

  /** `s.split(sep)`: the pieces between separators, one more than there are
      separators, none of them containing the separator. */
  function Split(s: string, sep: char): (parts: seq<string>)
    ensures |parts| == Count(s, sep) + 1
    ensures |parts| == 1 <==> sep !in s
    ensures forall i :: 0 <= i < |parts| ==> sep !in parts[i]
    decreases |s|
  {
    if |s| == 0 then [""]
    else
      var rest := Split(s[1..], sep);
      assert s == [s[0]] + s[1..];
      if s[0] == sep then [""] + rest
      else [[s[0]] + rest[0]] + rest[1..]
  }

  /** `sep.join(parts)`. */
  function Join(parts: seq<string>, sep: char): string
    requires |parts| > 0
    decreases |parts|
  {
    if |parts| == 1 then parts[0] else parts[0] + [sep] + Join(parts[1..], sep)
  }

  /** Joining the pieces of a split gives back the original text. */
  lemma {:induction false} JoinSplit(s: string, sep: char)
    ensures Join(Split(s, sep), sep) == s
    decreases |s|
  {
    if |s| > 0 {
      var rest := Split(s[1..], sep);
      JoinSplit(s[1..], sep);
      var parts := Split(s, sep);
      if s[0] == sep {
        assert parts[1..] == rest;
      } else if |rest| > 1 {
        assert parts[1..] == rest[1..];
      }
    }
  }

  lemma {:induction false} SplitWithoutSeparator(a: string, sep: char)
    requires sep !in a
    ensures Split(a, sep) == [a]
    decreases |a|
  {
    if |a| > 0 {
      assert sep !in a[1..] by {
        forall k | 0 <= k < |a[1..]|
          ensures a[1..][k] != sep
        {
          assert a[1..][k] == a[k + 1];
        }
      }
      SplitWithoutSeparator(a[1..], sep);
      assert [a[0]] + a[1..] == a;
    }
  }

  lemma {:induction false} SplitAfterFirst(a: string, sep: char, b: string)
    requires sep !in a
    ensures Split(a + [sep] + b, sep) == [a] + Split(b, sep)
    decreases |a|
  {
    var s := a + [sep] + b;
    if |a| == 0 {
      assert s[1..] == b;
    } else {
      assert s[0] == a[0] && s[0] != sep;
      assert s[1..] == a[1..] + [sep] + b;
      assert sep !in a[1..] by {
        forall k | 0 <= k < |a[1..]|
          ensures a[1..][k] != sep
        {
          assert a[1..][k] == a[k + 1];
        }
      }
      SplitAfterFirst(a[1..], sep, b);
      var rest := Split(s[1..], sep);
      assert rest[0] == a[1..] && rest[1..] == Split(b, sep);
      assert Split(s, sep) == [[s[0]] + rest[0]] + rest[1..];
      assert [a[0]] + a[1..] == a;
    }
  }

  /** Splitting a join of separator-free pieces gives back the pieces. */
  lemma {:induction false} SplitJoin(parts: seq<string>, sep: char)
    requires |parts| > 0
    requires forall i :: 0 <= i < |parts| ==> sep !in parts[i]
    ensures Split(Join(parts, sep), sep) == parts
    decreases |parts|
  {
    if |parts| == 1 {
      SplitWithoutSeparator(parts[0], sep);
    } else {
      SplitJoin(parts[1..], sep);
      SplitAfterFirst(parts[0], sep, Join(parts[1..], sep));
    }
  }
}
