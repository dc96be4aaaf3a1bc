/**
 * The handful of Python string builtins the bot relies on (lower, split,
 * strip, lstrip, join, replace, startswith, `in`), stated over `seq<char>`.
 */
module Text {
  import opened Wrappers

  /** Python truthiness of an optional string: present and non-empty. */
  predicate Given(s: Option<string>) {
    s.Some? && s.value != ""
  }

  /** The characters `str.isspace()` accepts, which `split()` and `strip()` treat as blanks. */
  predicate IsSpace(c: char) {
    c == ' ' || ('\t' <= c <= '\r') || ('\U{1C}' <= c <= '\U{1F}')
    || c == '\U{85}' || c == '\U{A0}' || c == '\U{1680}'
    || ('\U{2000}' <= c <= '\U{200A}') || c == '\U{2028}' || c == '\U{2029}'
    || c == '\U{202F}' || c == '\U{205F}' || c == '\U{3000}'
  }

  predicate IsDigit(c: char) {
    '0' <= c <= '9'
  }

  /** `str.lower()` for Latin and Cyrillic capitals; every other character is its own lower case. */
  function LowerChar(c: char): (l: char)
    ensures IsSpace(l) <==> IsSpace(c)
    ensures IsDigit(l) <==> IsDigit(c)
    ensures !('A' <= c <= 'Z' || '\U{400}' <= c <= '\U{42F}') ==> l == c
  {
    if 'A' <= c <= 'Z' then (c as int + 32) as char
    else if '\U{410}' <= c <= '\U{42F}' then (c as int + 32) as char
    else if '\U{400}' <= c <= '\U{40F}' then (c as int + 80) as char
    else c
  }

  lemma {:induction false} LowerCharIdempotent(c: char)
    ensures LowerChar(LowerChar(c)) == LowerChar(c)
  {
  }

  function Lower(s: string): (r: string)
    ensures |r| == |s|
    ensures forall i :: 0 <= i < |s| ==> r[i] == LowerChar(s[i])
  {
    if s == [] then [] else [LowerChar(s[0])] + Lower(s[1..])
  }

  lemma {:induction false} LowerIdempotent(s: string)
    ensures Lower(Lower(s)) == Lower(s)
  {
    forall i | 0 <= i < |s| {
      LowerCharIdempotent(s[i]);
    }
  }

  lemma {:induction false} LowerConcat(a: string, b: string)
    ensures Lower(a + b) == Lower(a) + Lower(b)
  {
    assert forall i :: 0 <= i < |a + b| ==> (a + b)[i] == if i < |a| then a[i] else b[i - |a|];
  }

  function RemoveChar(s: string, c: char): (r: string)
    ensures c !in r
    ensures forall x :: x in r ==> x in s
    ensures |r| <= |s|
  {
    if s == [] then []
    else if s[0] == c then RemoveChar(s[1..], c)
    else [s[0]] + RemoveChar(s[1..], c)
  }

  lemma {:induction false} RemoveConcat(a: string, b: string, c: char)
    ensures RemoveChar(a + b, c) == RemoveChar(a, c) + RemoveChar(b, c)
  {
    if a == [] {
      assert a + b == b;
    } else {
      assert (a + b)[1..] == a[1..] + b;
      RemoveConcat(a[1..], b, c);
    }
  }

  /** `s.lstrip(c)`: drop every leading copy of `c`. */
  function LStripChar(s: string, c: char): (r: string)
    ensures r == [] || r[0] != c
    ensures |r| <= |s| && r == s[|s| - |r|..]
  {
    if s != [] && s[0] == c then LStripChar(s[1..], c) else s
  }

  function LStrip(s: string): (r: string)
    ensures r == [] || !IsSpace(r[0])
    ensures |r| <= |s| && r == s[|s| - |r|..]
  {
    if s != [] && IsSpace(s[0]) then LStrip(s[1..]) else s
  }

  function RStrip(s: string): (r: string)
    ensures r == [] || !IsSpace(r[|r| - 1])
    ensures |r| <= |s| && r == s[..|r|]
  {
    if s != [] && IsSpace(s[|s| - 1]) then RStrip(s[..|s| - 1]) else s
  }

  /** `s.strip()` */
  function Strip(s: string): (r: string)
    ensures r == [] || (!IsSpace(r[0]) && !IsSpace(r[|r| - 1]))
    ensures |r| <= |s|
  {
    RStrip(LStrip(s))
  }

  predicate StartsWith(s: string, prefix: string) {
    |prefix| <= |s| && s[..|prefix|] == prefix
  }

  predicate OccursAt(sub: string, s: string, i: nat) {
    i + |sub| <= |s| && s[i..i + |sub|] == sub
  }

  /** Python's `sub in s` for strings. */
  predicate IsSubstring(sub: string, s: string) {
    exists i: nat | i <= |s| :: OccursAt(sub, s, i)
  }

  /** `s.replace(pat, "")`: delete every non-overlapping copy of `pat`, scanning from the left. */
  function RemoveAll(s: string, pat: string): (r: string)
    requires pat != []
    ensures |r| <= |s|
    ensures !IsSubstring(pat, s) ==> r == s
    decreases |s|
  {
    if |s| < |pat| then s
    else if s[..|pat|] == pat then
      assert OccursAt(pat, s, 0);
      RemoveAll(s[|pat|..], pat)
    else
      assert forall i: nat :: OccursAt(pat, s[1..], i) ==> OccursAt(pat, s, i + 1);
      [s[0]] + RemoveAll(s[1..], pat)
  }

  /** A leading copy of `pat` goes, and so does every later one. */
  lemma {:induction false} RemoveAllLeading(pat: string, s: string)
    requires pat != []
    ensures RemoveAll(pat + s, pat) == RemoveAll(s, pat)
  {
    assert (pat + s)[..|pat|] == pat;
    assert (pat + s)[|pat|..] == s;
  }

  /** Length of the run of non-blank characters at the head of `s`. */
  function WordLength(s: string): (n: nat)
    requires s != [] && !IsSpace(s[0])
    ensures 1 <= n <= |s|
    ensures n < |s| ==> IsSpace(s[n])
    ensures forall i :: 0 <= i < n ==> !IsSpace(s[i])
  {
    if |s| == 1 || IsSpace(s[1]) then 1 else 1 + WordLength(s[1..])
  }

  /** `s.split()`: the maximal runs of non-blank characters, in order. */
  function Words(s: string): (ws: seq<string>)
    ensures forall k :: 0 <= k < |ws| ==> ws[k] != []
    ensures forall k, i :: 0 <= k < |ws| && 0 <= i < |ws[k]| ==> !IsSpace(ws[k][i])
    decreases |s|
  {
    if s == [] then []
    else if IsSpace(s[0]) then Words(s[1..])
    else
      var n := WordLength(s);
      [s[..n]] + Words(s[n..])
  }

  /** `sep.join(parts)` */
  function Join(parts: seq<string>, sep: string): string {
    if |parts| == 0 then ""
    else if |parts| == 1 then parts[0]
    else parts[0] + sep + Join(parts[1..], sep)
  }

  /** `s.split(sep)` for a one-character separator: empty pieces are kept. */
  function SplitOn(s: string, sep: char): (parts: seq<string>)
    ensures |parts| >= 1
    ensures forall k :: 0 <= k < |parts| ==> sep !in parts[k]
    decreases |s|
  {
    if s == [] then [""]
    else if s[0] == sep then [""] + SplitOn(s[1..], sep)
    else
      var rest := SplitOn(s[1..], sep);
      [[s[0]] + rest[0]] + rest[1..]
  }

  /** Value of an ASCII digit; only ever applied to digits. */
  function DigitValue(c: char): (d: nat)
    ensures d <= 9
  {
    if IsDigit(c) then c as int - '0' as int else 0
  }

  /** Value of a string of ASCII digits, as `int()` reads it; only ever applied to digit strings. */
  function DigitsValue(s: string): nat {
    if s == [] then 0
    else DigitsValue(s[..|s| - 1]) * 10 + DigitValue(s[|s| - 1])
  }

  /** `str.isdigit()` restricted to ASCII digits. */
  predicate AllDigits(s: string) {
    s != [] && forall i :: 0 <= i < |s| ==> IsDigit(s[i])
  }

  /** `int(s)` on a blank-free token: an optional sign and ASCII digits; anything else raises. */
  function ParseInt(s: string): (r: Option<int>)
    ensures AllDigits(s) ==> r == Some(DigitsValue(s))
    ensures r.Some? ==> AllDigits(s) || (|s| >= 2 && (s[0] == '-' || s[0] == '+') && AllDigits(s[1..]))
  {
    if AllDigits(s) then Some(DigitsValue(s))
    else if |s| >= 2 && s[0] == '+' && AllDigits(s[1..]) then Some(DigitsValue(s[1..]))
    else if |s| >= 2 && s[0] == '-' && AllDigits(s[1..]) then Some(-(DigitsValue(s[1..]) as int))
    else None
  }
}
