/** String helpers standing in for the Python built-ins the pipeline uses:
    str.strip(), str.lower(), the `in` substring test, slicing `s[:n]`,
    integer formatting in f-strings and str.join. Only ASCII behaviour is
    modelled. */
module Text {

  function Min(a: int, b: int): int { if a <= b then a else b }

  /** The ASCII characters for which Python's str.isspace() holds; str.strip()
      removes these from both ends. */
  predicate IsSpace(c: char) {
    c == ' ' || c == '\t' || c == '\n' || c == '\r' || c == '\U{0B}' || c == '\U{0C}'
    || ('\U{1C}' <= c <= '\U{1F}')
  }

  /** Python's s.lstrip() on ASCII text. */
  function TrimStart(s: string): string {
    if s != [] && IsSpace(s[0]) then TrimStart(s[1..]) else s
  }

  /** Python's s.rstrip() on ASCII text. */
  function TrimEnd(s: string): string {
    if s != [] && IsSpace(s[|s| - 1]) then TrimEnd(s[..|s| - 1]) else s
  }

  /** Stripping the front leaves a suffix of `s`, everything cut off was
      whitespace, and what is left does not start with whitespace. */
  lemma {:induction false} TrimStartSpec(s: string)
    ensures var r := TrimStart(s);
      && |r| <= |s| && r == s[|s| - |r|..]
      && (forall i :: 0 <= i < |s| - |r| ==> IsSpace(s[i]))
      && (r == [] || !IsSpace(r[0]))
  {
    if s != [] && IsSpace(s[0]) {
      var t := s[1..];
      TrimStartSpec(t);
      var r := TrimStart(t);
      assert TrimStart(s) == r;
      assert s[|s| - |r|..] == t[|t| - |r|..];
      forall i | 0 <= i < |s| - |r|
        ensures IsSpace(s[i])
      {
        if i > 0 {
          assert s[i] == t[i - 1];
        }
      }
    }
  }

  /** Stripping the back leaves a prefix of `s`, everything cut off was
      whitespace, and what is left does not end with whitespace. */
  lemma {:induction false} TrimEndSpec(s: string)
    ensures var r := TrimEnd(s);
      && |r| <= |s| && r == s[..|r|]
      && (forall i :: |r| <= i < |s| ==> IsSpace(s[i]))
      && (r == [] || !IsSpace(r[|r| - 1]))
  {
    if s != [] && IsSpace(s[|s| - 1]) {
      var t := s[..|s| - 1];
      TrimEndSpec(t);
      var r := TrimEnd(t);
      assert TrimEnd(s) == r;
      assert s[..|r|] == t[..|r|];
      forall i | |r| <= i < |s|
        ensures IsSpace(s[i])
      {
        if i < |t| {
          assert s[i] == t[i];
        }
      }
    }
  }

  /** Python's s.strip() on ASCII text. */
  function Trim(s: string): string {
    TrimEnd(TrimStart(s))
  }

  /** Stripping keeps every non-whitespace character, so a string with one
      such character never strips to the empty string. */
  lemma TrimKeepsNonSpace(s: string, k: nat)
    requires k < |s| && !IsSpace(s[k])
    ensures Trim(s) != ""
  {
    var t := TrimStart(s);
    TrimStartSpec(s);
    TrimEndSpec(t);
    assert k >= |s| - |t|;
  }

  /** The result of stripping has no whitespace at either end. */
  lemma TrimHasNoOuterSpace(s: string)
    ensures Trim(s) == [] || (!IsSpace(Trim(s)[0]) && !IsSpace(Trim(s)[|Trim(s)| - 1]))
  {
    var t := TrimStart(s);
    var r := TrimEnd(t);
    TrimStartSpec(s);
    TrimEndSpec(t);
    if r != [] {
      assert r[0] == t[0];
    }
  }

  function LowerChar(c: char): (d: char)
  {
    if 'A' <= c <= 'Z' then (c as int - 'A' as int + 'a' as int) as char else c
  }

  /** Python's s.lower() on ASCII text: same length, each letter lowered. */
  function ToLower(s: string): string {
    seq(|s|, i requires 0 <= i < |s| => LowerChar(s[i]))
  }

  /** `needle` stands in `hay` starting at index `i`. */
  ghost predicate OccursAt(needle: string, hay: string, i: int) {
    0 <= i <= |hay| - |needle| && hay[i..i + |needle|] == needle
  }

  /** Python's `needle in hay` for strings: true exactly when `needle` stands
      in `hay` at some position. */
  function Occurs(needle: string, hay: string): (r: bool)
    ensures r <==> exists i :: OccursAt(needle, hay, i)
    decreases |hay|
  {
    if |hay| < |needle| then false
    else if hay[..|needle|] == needle then (assert OccursAt(needle, hay, 0); true)
    else
      var rest := Occurs(needle, hay[1..]);
      assert forall i :: OccursAt(needle, hay[1..], i) <==> OccursAt(needle, hay, i + 1) by {
        forall i ensures OccursAt(needle, hay[1..], i) <==> OccursAt(needle, hay, i + 1) {
          if 0 <= i <= |hay| - 1 - |needle| {
            assert hay[1..][i..i + |needle|] == hay[i + 1..i + 1 + |needle|];
          }
        }
      }
      assert !OccursAt(needle, hay, 0);
      assert (exists i :: OccursAt(needle, hay, i)) ==> exists i :: OccursAt(needle, hay[1..], i) by {
        if exists i :: OccursAt(needle, hay, i) {
          var i :| OccursAt(needle, hay, i);
          assert OccursAt(needle, hay[1..], i - 1);
        }
      }
      rest
  }

  /** Python's slice `s[:n]`: the longest prefix of `s` of length at most `n`. */
  function Take<T>(s: seq<T>, n: nat): (r: seq<T>)
    ensures |r| == Min(|s|, n) && r == s[..|r|]
  {
    if |s| <= n then s else s[..n]
  }

  function DigitChar(d: nat): char
    requires d < 10
  {
    ('0' as int + d) as char
  }

  /** Python's f"{n}" for a non-negative integer: decimal digits, no leading
      zero. */
  function DecimalString(n: nat): (r: string)
    ensures |r| >= 1
    ensures forall i :: 0 <= i < |r| ==> '0' <= r[i] <= '9'
    ensures |r| > 1 ==> r[0] != '0'
  {
    if n < 10 then [DigitChar(n)] else DecimalString(n / 10) + [DigitChar(n % 10)]
  }

  /** The number a string of decimal digits denotes (int("...") in Python). */
  function DecimalValue(s: string): int {
    if s == [] then 0
    else DecimalValue(s[..|s| - 1]) * 10 + (s[|s| - 1] as int - '0' as int)
  }

  /** Formatting a count and reading it back gives the count. */
  lemma {:induction false} DecimalRoundTrip(n: nat)
    ensures DecimalValue(DecimalString(n)) == n
  {
    if n >= 10 {
      var s := DecimalString(n);
      assert s[..|s| - 1] == DecimalString(n / 10);
      DecimalRoundTrip(n / 10);
    }
  }

  /** Python's `sep.join(parts)`. */
  function Join(parts: seq<string>, sep: string): string {
    if |parts| == 0 then ""
    else if |parts| == 1 then parts[0]
    else Join(parts[..|parts| - 1], sep) + sep + parts[|parts| - 1]
  }
}
