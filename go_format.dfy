/** The parts of Go's `fmt` and `strings` packages the webhook's messages and
    patch paths are built with: the `%q` verb (strconv.Quote), the `%d` verb on a
    non-negative int, strings.Join and strings.HasSuffix. */
module GoFormat {
  import opened Wrappers

  // ---------------------------------------------------------------------------
  // `%q` on a string
  // ---------------------------------------------------------------------------

  function HexDigit(n: nat): char
    requires n < 16
  {
    "0123456789abcdef"[n]
  }

  /** A character strconv.Quote copies unchanged (within ASCII: printable and
      neither a double quote nor a backslash). */
  predicate IsPlainChar(c: char) {
    c != '"' && c != '\\' && 32 <= c as int && c as int != 127
  }

  predicate IsPlain(s: string) {
    forall i :: 0 <= i < |s| ==> IsPlainChar(s[i])
  }

  /** The escape strconv.Quote writes for one character. */
  function EscapeChar(c: char): (e: string)
    ensures IsPlainChar(c) <==> e == [c]
    ensures |e| >= 1
  {
    if c == '"' then "\\\""
    else if c == '\\' then "\\\\"
    else if c as int == 7 then "\\a"
    else if c as int == 8 then "\\b"
    else if c as int == 12 then "\\f"
    else if c == '\n' then "\\n"
    else if c == '\r' then "\\r"
    else if c == '\t' then "\\t"
    else if c as int == 11 then "\\v"
    else if c as int < 32 || c as int == 127 then ['\\', 'x', HexDigit(c as int / 16), HexDigit(c as int % 16)]
    else [c]
  }

  function Escape(s: string): string {
    if s == [] then [] else EscapeChar(s[0]) + Escape(s[1..])
  }

  /** `fmt.Sprintf("%q", s)`: the string between double quotes, with Go's escapes. */
  function Quote(s: string): (q: string)
    ensures |q| >= 2 && q[0] == '"' && q[|q| - 1] == '"'
  {
    "\"" + Escape(s) + "\""
  }

  /** A plain string is quoted by wrapping it in double quotes and nothing else. */
  lemma {:induction false} QuotePlain(s: string)
    requires IsPlain(s)
    ensures Quote(s) == "\"" + s + "\""
  {
    EscapePlain(s);
  }

  lemma {:induction false} EscapePlain(s: string)
    requires IsPlain(s)
    ensures Escape(s) == s
  {
    if s != [] {
      EscapePlain(s[1..]);
      assert s == [s[0]] + s[1..];
    }
  }

  // ---------------------------------------------------------------------------
  // `%d` on a non-negative int, and its inverse
  // ---------------------------------------------------------------------------

  predicate IsDigit(c: char) {
    '0' as int <= c as int <= '9' as int
  }

  function DigitChar(d: nat): (c: char)
    requires d < 10
    ensures IsDigit(c) && c as int - '0' as int == d
  {
    "0123456789"[d]
  }

  /** `fmt.Sprintf("%d", n)` for n >= 0. */
  function DecimalString(n: nat): (s: string)
    ensures |s| > 0
    ensures forall i :: 0 <= i < |s| ==> IsDigit(s[i])
    ensures s[0] == '0' ==> n == 0 && s == "0"
  {
    if n < 10 then [DigitChar(n)] else DecimalString(n / 10) + [DigitChar(n % 10)]
  }

  function DecimalValue(s: string): nat
    requires |s| > 0
    requires forall i :: 0 <= i < |s| ==> IsDigit(s[i])
  {
    if |s| == 1 then DigitValue(s[0])
    else DecimalValue(s[..|s| - 1]) * 10 + DigitValue(s[|s| - 1])
  }

  function DigitValue(c: char): nat
    requires IsDigit(c)
  {
    c as int - '0' as int
  }

  /** Reads back a run of decimal digits; None for an empty or non-digit string. */
  function ParseDecimal(s: string): (r: Option<nat>)
    ensures r.Some? <==> |s| > 0 && forall i :: 0 <= i < |s| ==> IsDigit(s[i])
  {
    if |s| > 0 && forall i :: 0 <= i < |s| ==> IsDigit(s[i]) then Some(DecimalValue(s)) else None
  }

  lemma {:induction false} DecimalValueOfString(n: nat)
    ensures DecimalValue(DecimalString(n)) == n
  {
    if n >= 10 {
      var s := DecimalString(n);
      assert s[..|s| - 1] == DecimalString(n / 10);
      DecimalValueOfString(n / 10);
    }
  }

  /** Printing an index and reading it back gives the index. */
  lemma DecimalRoundTrip(n: nat)
    ensures ParseDecimal(DecimalString(n)) == Some(n)
  {
    DecimalValueOfString(n);
  }

  // ---------------------------------------------------------------------------
  // strings.Join and strings.HasSuffix
  // ---------------------------------------------------------------------------

  /** `strings.Join(parts, sep)`. */
  function Join(parts: seq<string>, sep: string): string {
    if |parts| == 0 then ""
    else if |parts| == 1 then parts[0]
    else parts[0] + sep + Join(parts[1..], sep)
  }

  /** `strings.HasSuffix(s, suffix)`. */
  predicate HasSuffix(s: string, suffix: string) {
    |suffix| <= |s| && s[|s| - |suffix|..] == suffix
  }

  /** A string ends with whatever was appended to it last. */
  lemma HasSuffixOfConcat(p: string, q: string)
    ensures HasSuffix(p + q, q)
  {
    assert (p + q)[|p|..] == q;
  }

  lemma HasSuffixIffDecomposes(s: string, suffix: string)
    ensures HasSuffix(s, suffix) <==> exists p: string :: s == p + suffix
  {
    if HasSuffix(s, suffix) {
      assert s == s[..|s| - |suffix|] + suffix;
    }
    if exists p: string :: s == p + suffix {
      var p: string :| s == p + suffix;
      assert s[|s| - |suffix|..] == suffix;
    }
  }

  // ---------------------------------------------------------------------------
  // `fmt.Errorf(msg)` with no operands
  // ---------------------------------------------------------------------------

  predicate IsFlag(c: char) {
    c == '#' || c == '0' || c == '+' || c == '-' || c == ' '
  }

  /** Neither an argument index `[n]` nor a `*` width or precision appears. */
  predicate NoIndexOrStar(s: string) {
    forall i :: 0 <= i < |s| ==> s[i] != '[' && s[i] != '*'
  }

  predicate NoPercent(s: string) {
    forall i :: 0 <= i < |s| ==> s[i] != '%'
  }

  /** Go's `parsenum`: skips a run of digits accumulating their value in `num`; a
      value grown past 10^6 with a digit still to come abandons the format,
      returning its end. */
  function SkipNumber(s: string, j: nat, num: nat): (k: nat)
    requires j <= |s|
    ensures j <= k <= |s|
    decreases |s| - j
  {
    if j < |s| && IsDigit(s[j]) then
      if num > 1_000_000 then |s| else SkipNumber(s, j + 1, num * 10 + DigitValue(s[j]))
    else j
  }

  function SkipFlags(s: string, j: nat): (k: nat)
    requires j <= |s|
    ensures j <= k <= |s|
    decreases |s| - j
  {
    if j < |s| && IsFlag(s[j]) then SkipFlags(s, j + 1) else j
  }

  /** Flags, then a width, then a precision: a `.` followed by optional digits. */
  function SkipVerbPrefix(s: string, j: nat): (k: nat)
    requires j <= |s|
    ensures j <= k <= |s|
  {
    var w := SkipNumber(s, SkipFlags(s, j), 0);
    if w < |s| && s[w] == '.' then SkipNumber(s, w + 1, 0) else w
  }

  /** What `fmt.Errorf(format).Error()` produces when no operands follow the format:
      `%%` prints `%`, a `%` whose verb never comes (the format ends, or an
      over-long width abandons it) prints `%!(NOVERB)`, and any other verb prints
      `%!<verb>(MISSING)`. */
  function ErrorfNoOperands(format: string): string
    requires NoIndexOrStar(format)
    decreases |format|
  {
    if format == [] then ""
    else if format[0] != '%' then [format[0]] + ErrorfNoOperands(format[1..])
    else
      var j := SkipVerbPrefix(format, 1);
      if j >= |format| then "%!(NOVERB)"
      else if format[j] == '%' then "%" + ErrorfNoOperands(format[j + 1..])
      else "%!" + [format[j]] + "(MISSING)" + ErrorfNoOperands(format[j + 1..])
  }

  /** A format without `%` comes out unchanged. */
  lemma {:induction false} ErrorfNoPercent(format: string)
    requires NoIndexOrStar(format) && NoPercent(format)
    ensures ErrorfNoOperands(format) == format
  {
    if format != [] {
      ErrorfNoPercent(format[1..]);
      assert format == [format[0]] + format[1..];
    }
  }

  lemma NoIndexOrStarConcat(a: string, b: string)
    ensures NoIndexOrStar(a + b) <==> NoIndexOrStar(a) && NoIndexOrStar(b)
  {
    if NoIndexOrStar(a + b) {
      forall i | 0 <= i < |a| ensures a[i] != '[' && a[i] != '*' {
        assert a[i] == (a + b)[i];
      }
      forall i | 0 <= i < |b| ensures b[i] != '[' && b[i] != '*' {
        assert b[i] == (a + b)[|a| + i];
      }
    }
  }

  lemma NoPercentConcat(a: string, b: string)
    ensures NoPercent(a + b) <==> NoPercent(a) && NoPercent(b)
  {
    if NoPercent(a + b) {
      forall i | 0 <= i < |a| ensures a[i] != '%' {
        assert a[i] == (a + b)[i];
      }
      forall i | 0 <= i < |b| ensures b[i] != '%' {
        assert b[i] == (a + b)[|a| + i];
      }
    }
  }

  lemma IsPlainConcat(a: string, b: string)
    requires IsPlain(a) && IsPlain(b)
    ensures IsPlain(a + b)
  {
    forall i | 0 <= i < |a + b| ensures IsPlainChar((a + b)[i]) {
      if i >= |a| {
        assert (a + b)[i] == b[i - |a|];
      }
    }
  }

  /** One character other than `%` is copied ahead of the rest. */
  lemma ErrorfPlainChar(c: char, r: string)
    requires c != '%' && NoIndexOrStar([c] + r)
    ensures NoIndexOrStar(r)
    ensures ErrorfNoOperands([c] + r) == [c] + ErrorfNoOperands(r)
  {
    NoIndexOrStarConcat([c], r);
    assert ([c] + r)[1..] == r;
  }

  /** A `%`-free prefix is copied unchanged ahead of the rest. */
  lemma {:induction false} ErrorfPlainPrefix(p: string, q: string)
    requires NoIndexOrStar(p + q) && NoPercent(p)
    ensures NoIndexOrStar(q)
    ensures ErrorfNoOperands(p + q) == p + ErrorfNoOperands(q)
  {
    NoIndexOrStarConcat(p, q);
    if p != [] {
      var r := p[1..] + q;
      assert p + q == [p[0]] + r;
      assert p[0] != '%';
      ErrorfPlainChar(p[0], r);
      ErrorfPlainPrefix(p[1..], q);
      var e := ErrorfNoOperands(q);
      calc {
        ErrorfNoOperands(p + q);
        ErrorfNoOperands([p[0]] + r);
        [p[0]] + ErrorfNoOperands(r);
        [p[0]] + (p[1..] + e);
        { assert [p[0]] + (p[1..] + e) == ([p[0]] + p[1..]) + e; assert [p[0]] + p[1..] == p; }
        p + e;
      }
    } else {
      assert p + q == q;
    }
  }

  /** A format that starts with `%` and a double quote. */
  lemma ErrorfPercentQuoteHead(q: string)
    requires NoIndexOrStar("%\"" + q)
    ensures NoIndexOrStar(q)
    ensures ErrorfNoOperands("%\"" + q) == "%!\"(MISSING)" + ErrorfNoOperands(q)
  {
    var r := "%\"" + q;
    NoIndexOrStarConcat("%\"", q);
    assert r[0] == '%' && r[1] == '"';
    assert SkipFlags(r, 1) == 1;
    assert SkipNumber(r, 1, 0) == 1;
    assert r[2..] == q;
  }

  /** A `%` directly followed by a double quote becomes `%!"(MISSING)`. */
  lemma ErrorfPercentQuote(p: string, q: string)
    requires NoIndexOrStar(p + "%\"" + q) && NoPercent(p)
    ensures NoIndexOrStar(q)
    ensures ErrorfNoOperands(p + "%\"" + q) == p + "%!\"(MISSING)" + ErrorfNoOperands(q)
  {
    var r := "%\"" + q;
    assert p + "%\"" + q == p + r;
    ErrorfPlainPrefix(p, r);
    ErrorfPercentQuoteHead(q);
    assert p + ("%!\"(MISSING)" + ErrorfNoOperands(q)) == p + "%!\"(MISSING)" + ErrorfNoOperands(q);
  }

  /** So a format with such a `%` never comes out as written. */
  lemma PercentQuoteAltered(p: string, q: string)
    requires NoIndexOrStar(p + "%\"" + q) && NoPercent(p)
    ensures ErrorfNoOperands(p + "%\"" + q) != p + "%\"" + q
  {
    ErrorfPercentQuote(p, q);
    var written := p + "%\"" + q;
    var printed := p + "%!\"(MISSING)" + ErrorfNoOperands(q);
    assert written[|p| + 1] == '"';
    assert printed[|p| + 1] == '!';
  }
}
