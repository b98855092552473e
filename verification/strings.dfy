/**
 * The small string helpers the core relies on: decimal printing (`operator<<` on an
 * unsigned integer, `{}` in a format string), `Warhead::String::TrimRightInPlace`,
 * `Warhead::Tokenize`, `StringEqualI` and `Warhead::StringTo`.  Their implementations
 * are not part of this model; each is given the obvious definition here.
 */
module StringUtil {
  import opened Wrappers

  predicate IsDigit(c: char) {
    '0' <= c <= '9'
  }

  predicate AllDigits(s: string) {
    forall i :: 0 <= i < |s| ==> IsDigit(s[i])
  }

  function DigitChar(d: nat): (c: char)
    requires d < 10
    ensures IsDigit(c)
  {
    ('0' as int + d) as char
  }

  function DigitValue(c: char): (d: nat)
    requires IsDigit(c)
    ensures d < 10 && DigitChar(d) == c
  {
    c as int - '0' as int
  }

  /** The decimal text of `n`, most significant digit first, without leading zeros. */
  function Decimal(n: nat): (s: string)
    ensures |s| >= 1
    ensures AllDigits(s)
    ensures s[0] == '0' ==> n == 0
    decreases n
  {
    if n < 10 then [DigitChar(n)] else Decimal(n / 10) + [DigitChar(n % 10)]
  }

  /** The number a string of decimal digits denotes. */
  function DecimalValue(s: string): nat
    requires AllDigits(s)
    decreases |s|
  {
    if s == [] then 0 else 10 * DecimalValue(s[..|s| - 1]) + DigitValue(s[|s| - 1])
  }

  /** Reading back the printed number gives the number: printing loses nothing. */
  lemma {:induction false} DecimalRoundTrip(n: nat)
    ensures DecimalValue(Decimal(n)) == n
    decreases n
  {
    if n >= 10 {
      var s := Decimal(n);
      assert s[..|s| - 1] == Decimal(n / 10);
      DecimalRoundTrip(n / 10);
    }
  }

  /** Two numbers print the same only if they are equal. */
  lemma DecimalInjective(m: nat, n: nat)
    requires Decimal(m) == Decimal(n)
    ensures m == n
  {
    DecimalRoundTrip(m);
    DecimalRoundTrip(n);
  }

  /** `std::isspace` in the C locale: space, and the control characters 9 to 13. */
  predicate IsSpace(c: char) {
    c == ' ' || 9 <= c as int <= 13
  }

  /** `TrimRightInPlace`: drop every trailing white-space character. */
  function TrimRight(s: string): (r: string)
    ensures r <= s
    ensures r == [] || !IsSpace(r[|r| - 1])
    ensures forall i :: |r| <= i < |s| ==> IsSpace(s[i])
    decreases |s|
  {
    if s != [] && IsSpace(s[|s| - 1]) then TrimRight(s[..|s| - 1]) else s
  }

  /** A string that does not end in white space is left as it is. */
  lemma {:induction false} TrimRightKeeps(s: string)
    requires s == [] || !IsSpace(s[|s| - 1])
    ensures TrimRight(s) == s
  {
  }

  /** Trimming after appending white space is trimming the original. */
  lemma {:induction false} TrimRightAppendSpace(s: string, w: string)
    requires forall i :: 0 <= i < |w| ==> IsSpace(w[i])
    ensures TrimRight(s + w) == TrimRight(s)
    decreases |w|
  {
    if w != [] {
      assert (s + w)[..|s + w| - 1] == s + w[..|w| - 1];
      TrimRightAppendSpace(s, w[..|w| - 1]);
    } else {
      assert s + w == s;
    }
  }

  /** The pieces of `s` between occurrences of `sep`, empty pieces included. */
  function SplitOn(s: string, sep: char): (r: seq<string>)
    ensures |r| >= 1
    ensures Join(r, sep) == s
    ensures forall i :: 0 <= i < |r| ==> sep !in r[i]
    decreases |s|
  {
    if s == [] then [""]
    else
      var rest := SplitOn(s[1..], sep);
      if s[0] == sep then [""] + rest
      else [[s[0]] + rest[0]] + rest[1..]
  }

  /** The pieces joined back with `sep` between them. */
  function Join(ts: seq<string>, sep: char): string
    decreases |ts|
  {
    if ts == [] then ""
    else if |ts| == 1 then ts[0]
    else ts[0] + [sep] + Join(ts[1..], sep)
  }

  /** The non-empty pieces, in order. */
  function NonEmpty(ts: seq<string>): (r: seq<string>)
    ensures |r| <= |ts|
    ensures forall i :: 0 <= i < |r| ==> r[i] != "" && r[i] in ts
    decreases |ts|
  {
    if ts == [] then []
    else if ts[0] == "" then NonEmpty(ts[1..])
    else [ts[0]] + NonEmpty(ts[1..])
  }

  /**
   * `Warhead::Tokenize(str, sep, keepEmpty)`: the pieces between separators; with
   * `keepEmpty` false the empty ones are dropped.
   */
  function Tokenize(s: string, sep: char, keepEmpty: bool): (r: seq<string>)
    ensures forall i :: 0 <= i < |r| ==> sep !in r[i]
    ensures keepEmpty ==> |r| >= 1 && Join(r, sep) == s
    ensures !keepEmpty ==> forall i :: 0 <= i < |r| ==> r[i] != ""
  {
    if keepEmpty then SplitOn(s, sep) else NonEmpty(SplitOn(s, sep))
  }

  /** A string without the separator is one token. */
  lemma {:induction false} SplitOnNoSeparator(s: string, sep: char)
    requires sep !in s
    ensures SplitOn(s, sep) == [s]
    decreases |s|
  {
    if s != [] {
      assert sep !in s[1..];
      SplitOnNoSeparator(s[1..], sep);
      assert [s[0]] + s[1..] == s;
    }
  }

  /** ASCII `std::tolower`. */
  function ToLower(c: char): char {
    if 'A' <= c <= 'Z' then (c as int + 32) as char else c
  }

  /** `StringEqualI`: equal up to the case of ASCII letters. */
  predicate EqualI(a: string, b: string) {
    |a| == |b| && forall i :: 0 <= i < |a| ==> ToLower(a[i]) == ToLower(b[i])
  }

  /**
   * `Warhead::StringTo` for an unsigned integer type whose values lie below `limit`:
   * the whole string must be decimal digits denoting a value in range.
   */
  function ParseUnsigned(s: string, limit: nat): (r: Option<nat>)
    ensures r.Some? ==> r.value < limit
  {
    if s != [] && AllDigits(s) && DecimalValue(s) < limit then Some(DecimalValue(s)) else None
  }

  /** Every in-range number is read back from its decimal text. */
  lemma ParseDecimal(n: nat, limit: nat)
    requires n < limit
    ensures ParseUnsigned(Decimal(n), limit) == Some(n)
  {
    DecimalRoundTrip(n);
  }

  function StringToUint8(s: string): Option<nat> {
    ParseUnsigned(s, 0x100)
  }

  function StringToUint64(s: string): Option<nat> {
    ParseUnsigned(s, 0x1_0000_0000_0000_0000)
  }

  /** `Warhead::StringTo<bool>`: the usual spellings of yes and no, in any case. */
  function StringToBool(s: string): Option<bool> {
    if EqualI(s, "1") || EqualI(s, "y") || EqualI(s, "on") || EqualI(s, "yes") || EqualI(s, "true") then Some(true)
    else if EqualI(s, "0") || EqualI(s, "n") || EqualI(s, "off") || EqualI(s, "no") || EqualI(s, "false") then Some(false)
    else None
  }
}
