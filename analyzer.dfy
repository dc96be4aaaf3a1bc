/**
 * `TextAnalyzer` of telegramBot/utils.py: leetspeak normalisation and the
 * banned-word matcher.
 */
module TextAnalysis {
  import opened Text

  /** `leet_map`, in its insertion order: each key is replaced by its string, in turn. */
  const LeetPairs: seq<(char, string)> := [
    ('0', "o"), ('1', "i"), ('3', "e"), ('4', "a"), ('5', "s"),
    ('7', "t"), ('8', "b"), ('@', "a"), ('$', "s"), ('(', "c"),
    ('+', "t"), ('_', ""), ('.', ""), (',', ""), ('-', "")]

  predicate IsLeetKey(c: char) {
    c in "0134578@$(+_.,-"
  }

  /** `s.replace(c, r)` for a one-character pattern. */
  function ReplaceAll(s: string, c: char, r: string): (t: string)
    ensures c !in s ==> t == s
  {
    if s == [] then []
    else (if s[0] == c then r else [s[0]]) + ReplaceAll(s[1..], c, r)
  }

  /** The loop of `normalize`: every pair's replacement applied to the whole text, in order. */
  function ReplaceEach(pairs: seq<(char, string)>, s: string): string
    decreases |pairs|
  {
    if pairs == [] then s else ReplaceEach(pairs[1..], ReplaceAll(s, pairs[0].0, pairs[0].1))
  }

  /** `normalize`: lower-case, then the leet replacements one after another. */
  function Normalize(text: string): string {
    ReplaceEach(LeetPairs, Lower(text))
  }

  /** The per-character reading of `leet_map`: what one character becomes. */
  function Leet(c: char): string {
    if c == '0' then "o" else if c == '1' then "i" else if c == '3' then "e"
    else if c == '4' then "a" else if c == '5' then "s" else if c == '7' then "t"
    else if c == '8' then "b" else if c == '@' then "a" else if c == '$' then "s"
    else if c == '(' then "c" else if c == '+' then "t"
    else if c == '_' || c == '.' || c == ',' || c == '-' then ""
    else [c]
  }

  function MapLeet(s: string): string {
    if s == [] then [] else Leet(s[0]) + MapLeet(s[1..])
  }

  /** Every character becomes at most one character, never a key; a non-key stays as it is. */
  lemma {:induction false} LeetShape(c: char)
    ensures |Leet(c)| <= 1
    ensures forall x :: x in Leet(c) ==> !IsLeetKey(x)
    ensures !IsLeetKey(c) ==> Leet(c) == [c]
  {
  }

  lemma {:induction false} MapLeetShape(s: string)
    ensures |MapLeet(s)| <= |s|
    ensures forall x :: x in MapLeet(s) ==> !IsLeetKey(x)
    decreases |s|
  {
    if s != [] {
      LeetShape(s[0]);
      MapLeetShape(s[1..]);
    }
  }

  /** The replacement a list of pairs gives a single character: the first pair keyed by it wins. */
  function FirstMatch(pairs: seq<(char, string)>, c: char): string {
    if pairs == [] then [c]
    else if pairs[0].0 == c then pairs[0].1
    else FirstMatch(pairs[1..], c)
  }

  /** No replacement produces a key that a later pair would replace again. */
  predicate Closed(pairs: seq<(char, string)>) {
    forall i, j :: 0 <= i < j < |pairs| ==> pairs[j].0 !in pairs[i].1
  }

  lemma {:induction false} ReplaceAllConcat(a: string, b: string, c: char, r: string)
    ensures ReplaceAll(a + b, c, r) == ReplaceAll(a, c, r) + ReplaceAll(b, c, r)
    decreases |a|
  {
    if a == [] {
      assert a + b == b;
    } else {
      assert (a + b)[0] == a[0];
      assert (a + b)[1..] == a[1..] + b;
      ReplaceAllConcat(a[1..], b, c, r);
      var h := if a[0] == c then r else [a[0]];
      assert ReplaceAll(a + b, c, r) == h + (ReplaceAll(a[1..], c, r) + ReplaceAll(b, c, r));
      assert ReplaceAll(a, c, r) == h + ReplaceAll(a[1..], c, r);
    }
  }

  lemma {:induction false} ReplaceEachConcat(pairs: seq<(char, string)>, a: string, b: string)
    ensures ReplaceEach(pairs, a + b) == ReplaceEach(pairs, a) + ReplaceEach(pairs, b)
    decreases |pairs|
  {
    if pairs != [] {
      ReplaceAllConcat(a, b, pairs[0].0, pairs[0].1);
      ReplaceEachConcat(pairs[1..], ReplaceAll(a, pairs[0].0, pairs[0].1), ReplaceAll(b, pairs[0].0, pairs[0].1));
    }
  }

  lemma {:induction false} ReplaceEachUntouched(pairs: seq<(char, string)>, s: string)
    requires forall i :: 0 <= i < |pairs| ==> pairs[i].0 !in s
    ensures ReplaceEach(pairs, s) == s
    decreases |pairs|
  {
    if pairs != [] {
      ReplaceEachUntouched(pairs[1..], s);
    }
  }

  /** Under `Closed`, running the replacements in turn on one character gives its first match. */
  lemma {:induction false} ReplaceEachChar(pairs: seq<(char, string)>, c: char)
    requires Closed(pairs)
    ensures ReplaceEach(pairs, [c]) == FirstMatch(pairs, c)
    decreases |pairs|
  {
    if pairs != [] {
      if pairs[0].0 == c {
        assert ReplaceAll([c], c, pairs[0].1) == pairs[0].1;
        ReplaceEachUntouched(pairs[1..], pairs[0].1);
      } else {
        assert ReplaceAll([c], pairs[0].0, pairs[0].1) == [c];
        ReplaceEachChar(pairs[1..], c);
      }
    }
  }

  lemma {:induction false} FirstMatchMiss(pairs: seq<(char, string)>, c: char)
    requires forall i :: 0 <= i < |pairs| ==> pairs[i].0 != c
    ensures FirstMatch(pairs, c) == [c]
    decreases |pairs|
  {
    if pairs != [] {
      FirstMatchMiss(pairs[1..], c);
    }
  }

  /** Where a key sits in `leet_map`. */
  ghost function KeyIndex(c: char): (k: nat)
    requires IsLeetKey(c)
    ensures k < |LeetPairs| && LeetPairs[k].0 == c && LeetPairs[k].1 == Leet(c)
  {
    if c == '0' then 0 else if c == '1' then 1 else if c == '3' then 2
    else if c == '4' then 3 else if c == '5' then 4 else if c == '7' then 5
    else if c == '8' then 6 else if c == '@' then 7 else if c == '$' then 8
    else if c == '(' then 9 else if c == '+' then 10 else if c == '_' then 11
    else if c == '.' then 12 else if c == ',' then 13 else 14
  }

  predicate DistinctKeys(pairs: seq<(char, string)>) {
    forall i, j :: 0 <= i < j < |pairs| ==> pairs[i].0 != pairs[j].0
  }

  lemma {:induction false} LeetKeysDistinct()
    ensures DistinctKeys(LeetPairs)
  {
  }

  lemma {:induction false} FirstMatchAt(pairs: seq<(char, string)>, k: nat, c: char)
    requires k < |pairs| && pairs[k].0 == c
    requires forall i :: 0 <= i < k ==> pairs[i].0 != c
    ensures FirstMatch(pairs, c) == pairs[k].1
    decreases k
  {
    if k > 0 {
      FirstMatchAt(pairs[1..], k - 1, c);
    }
  }

  lemma {:induction false} LeetIsFirstMatch(c: char)
    ensures FirstMatch(LeetPairs, c) == Leet(c)
  {
    if !IsLeetKey(c) {
      forall i | 0 <= i < |LeetPairs| ensures LeetPairs[i].0 != c {
        assert IsLeetKey(LeetPairs[i].0);
      }
      FirstMatchMiss(LeetPairs, c);
    } else {
      var k := KeyIndex(c);
      LeetKeysDistinct();
      FirstMatchAt(LeetPairs, k, c);
    }
  }

  /** Each character rewritten on its own by its first match. */
  function MapFirst(pairs: seq<(char, string)>, s: string): string {
    if s == [] then [] else FirstMatch(pairs, s[0]) + MapFirst(pairs, s[1..])
  }

  lemma {:induction false} ReplaceEachPerChar(pairs: seq<(char, string)>, s: string)
    requires Closed(pairs)
    ensures ReplaceEach(pairs, s) == MapFirst(pairs, s)
    decreases |s|
  {
    if s == [] {
      ReplaceEachEmpty(pairs);
    } else {
      assert s == [s[0]] + s[1..];
      ReplaceEachConcat(pairs, [s[0]], s[1..]);
      ReplaceEachChar(pairs, s[0]);
      ReplaceEachPerChar(pairs, s[1..]);
    }
  }

  lemma {:induction false} ReplaceEachEmpty(pairs: seq<(char, string)>)
    ensures ReplaceEach(pairs, []) == []
    decreases |pairs|
  {
    if pairs != [] {
      ReplaceEachEmpty(pairs[1..]);
    }
  }

  lemma {:induction false} MapFirstIsMapLeet(s: string)
    ensures MapFirst(LeetPairs, s) == MapLeet(s)
    decreases |s|
  {
    if s != [] {
      LeetIsFirstMatch(s[0]);
      MapFirstIsMapLeet(s[1..]);
    }
  }

  lemma {:induction false} LeetPairsClosed()
    ensures Closed(LeetPairs)
  {
    forall i, j | 0 <= i < j < |LeetPairs|
      ensures LeetPairs[j].0 !in LeetPairs[i].1
    {
      assert IsLeetKey(LeetPairs[j].0);
    }
  }

  /**
   * The sequential replacements of `normalize` act character by character:
   * normalising a text is lower-casing it and then rewriting each character
   * on its own with `Leet`.
   */
  lemma {:induction false} NormalizeIsPerChar(text: string)
    ensures Normalize(text) == MapLeet(Lower(text))
  {
    LeetPairsClosed();
    ReplaceEachPerChar(LeetPairs, Lower(text));
    MapFirstIsMapLeet(Lower(text));
  }

  /** A normalised text holds no leet key and is no longer than the original. */
  lemma {:induction false} NormalizeShape(text: string)
    ensures forall x :: x in Normalize(text) ==> !IsLeetKey(x)
    ensures |Normalize(text)| <= |text|
  {
    NormalizeIsPerChar(text);
    MapLeetShape(Lower(text));
  }

  /** "h3ll0" normalises to "hello", and "Ca$h" to "cash". */
  lemma {:induction false} NormalizeExample()
    ensures Normalize("h3ll0") == "hello"
    ensures Normalize("Ca$h") == "cash"
  {
    NormalizeIsPerChar("h3ll0");
    LeetExamples();
    NormalizeIsPerChar("Ca$h");
  }

  lemma {:induction false} LeetExamples()
    ensures MapLeet(Lower("h3ll0")) == "hello"
    ensures MapLeet(Lower("Ca$h")) == "cash"
  {
    LeetExampleHello();
    LeetExampleCash();
  }

  lemma {:induction false} LeetExampleHello()
    ensures MapLeet(Lower("h3ll0")) == "hello"
  {
  }

  lemma {:induction false} LeetExampleCash()
    ensures MapLeet(Lower("Ca$h")) == "cash"
  {
  }

  lemma {:induction false} MapLeetConcat(a: string, b: string)
    ensures MapLeet(a + b) == MapLeet(a) + MapLeet(b)
    decreases |a|
  {
    if a == [] {
      assert a + b == b;
    } else {
      assert (a + b)[1..] == a[1..] + b;
      MapLeetConcat(a[1..], b);
    }
  }

  lemma {:induction false} MapLeetLower(s: string)
    requires forall i :: 0 <= i < |s| ==> LowerChar(s[i]) == s[i]
    ensures forall i :: 0 <= i < |MapLeet(s)| ==> LowerChar(MapLeet(s)[i]) == MapLeet(s)[i]
    decreases |s|
  {
    if s != [] {
      MapLeetLower(s[1..]);
      var r := MapLeet(s);
      assert r == Leet(s[0]) + MapLeet(s[1..]);
      forall i | 0 <= i < |r| ensures LowerChar(r[i]) == r[i] {
        if i >= |Leet(s[0])| {
          assert r[i] == MapLeet(s[1..])[i - |Leet(s[0])|];
        }
      }
    }
  }

  lemma {:induction false} MapLeetFixes(s: string)
    requires forall x :: x in s ==> !IsLeetKey(x)
    ensures MapLeet(s) == s
    decreases |s|
  {
    if s != [] {
      assert s[0] in s;
      assert forall x :: x in s[1..] ==> x in s;
      MapLeetFixes(s[1..]);
    }
  }

  lemma {:induction false} LowerFixes(s: string)
    requires forall i :: 0 <= i < |s| ==> LowerChar(s[i]) == s[i]
    ensures Lower(s) == s
  {
  }

  /** Normalising twice is normalising once. */
  lemma {:induction false} NormalizeIdempotent(text: string)
    ensures Normalize(Normalize(text)) == Normalize(text)
  {
    var n := Normalize(text);
    NormalizeIsPerChar(text);
    NormalizeIsPerChar(n);
    forall i | 0 <= i < |Lower(text)| ensures LowerChar(Lower(text)[i]) == Lower(text)[i] {
      LowerCharIdempotent(text[i]);
    }
    MapLeetLower(Lower(text));
    MapLeetShape(Lower(text));
    LowerFixes(n);
    MapLeetFixes(n);
  }

  /** The character class `[a-zа-яё0-9]` that a banned phrase may not touch on either side. */
  predicate WordChar(c: char) {
    ('a' <= c <= 'z') || ('\U{430}' <= c <= '\U{44F}') || c == '\U{451}' || ('0' <= c <= '9')
  }

  /** `bad` occurs at `i` with a string edge or a non-word character on each side. */
  predicate PhraseAt(t: string, bad: string, i: nat) {
    OccursAt(bad, t, i)
    && (i == 0 || !WordChar(t[i - 1]))
    && (i + |bad| == |t| || !WordChar(t[i + |bad|]))
  }

  /** `re.search` of the bounded pattern built around `re.escape(bad)`. */
  predicate PhraseIn(t: string, bad: string) {
    exists i: nat | i <= |t| :: PhraseAt(t, bad, i)
  }

  /** The token test: short phrases need equality, longer ones a similarity above 0.85. */
  predicate TokenMatches(word: string, bad: string, ratio: (string, string) -> real) {
    if |bad| <= 3 then word == bad else ratio(word, bad) > 0.85
  }

  /** The inner `for word in words` loop of `is_bad_word`. */
  function TokenHit(words: seq<string>, bad: string, ratio: (string, string) -> real): bool {
    if words == [] then false
    else if |bad| <= 3 && words[0] == bad then true
    else if |bad| > 3 && ratio(words[0], bad) > 0.85 then true
    else TokenHit(words[1..], bad, ratio)
  }

  /** The outer `for bad in badwords` loop of `is_bad_word`. */
  function AnyHit(clean: string, words: seq<string>, badwords: seq<string>, ratio: (string, string) -> real): bool {
    if badwords == [] then false
    else if PhraseIn(clean, badwords[0]) then true
    else if TokenHit(words, badwords[0], ratio) then true
    else AnyHit(clean, words, badwords[1..], ratio)
  }

  /** `is_bad_word`, with `difflib`'s similarity ratio as a parameter. */
  function IsBadWord(text: string, badwords: seq<string>, ratio: (string, string) -> real): bool {
    var clean := Normalize(text);
    AnyHit(clean, Words(clean), badwords, ratio)
  }

  lemma {:induction false} TokenHitSpec(words: seq<string>, bad: string, ratio: (string, string) -> real)
    ensures TokenHit(words, bad, ratio) <==> exists j :: 0 <= j < |words| && TokenMatches(words[j], bad, ratio)
    decreases |words|
  {
    if words != [] {
      TokenHitSpec(words[1..], bad, ratio);
      if TokenHit(words[1..], bad, ratio) {
        var j :| 0 <= j < |words[1..]| && TokenMatches(words[1..][j], bad, ratio);
        assert TokenMatches(words[j + 1], bad, ratio);
      }
      if exists j :: 0 <= j < |words| && TokenMatches(words[j], bad, ratio) {
        var j :| 0 <= j < |words| && TokenMatches(words[j], bad, ratio);
        if j > 0 {
          assert TokenMatches(words[1..][j - 1], bad, ratio);
        }
      }
    }
  }

  /** One banned phrase hits a normalised text: as a bounded phrase, or as a token. */
  predicate Hits(clean: string, bad: string, ratio: (string, string) -> real) {
    PhraseIn(clean, bad) || exists j :: 0 <= j < |Words(clean)| && TokenMatches(Words(clean)[j], bad, ratio)
  }

  lemma {:induction false} AnyHitSpec(clean: string, badwords: seq<string>, ratio: (string, string) -> real)
    ensures AnyHit(clean, Words(clean), badwords, ratio) <==> exists k :: 0 <= k < |badwords| && Hits(clean, badwords[k], ratio)
    decreases |badwords|
  {
    if badwords != [] {
      TokenHitSpec(Words(clean), badwords[0], ratio);
      AnyHitSpec(clean, badwords[1..], ratio);
      if AnyHit(clean, Words(clean), badwords[1..], ratio) {
        var k :| 0 <= k < |badwords[1..]| && Hits(clean, badwords[1..][k], ratio);
        assert Hits(clean, badwords[k + 1], ratio);
      }
      if exists k :: 0 <= k < |badwords| && Hits(clean, badwords[k], ratio) {
        var k :| 0 <= k < |badwords| && Hits(clean, badwords[k], ratio);
        if k > 0 {
          assert Hits(clean, badwords[1..][k - 1], ratio);
        }
      }
    }
  }

  /**
   * `is_bad_word` is true exactly when some banned phrase hits the normalised
   * text; the order of the list does not matter.
   */
  lemma {:induction false} IsBadWordSpec(text: string, badwords: seq<string>, ratio: (string, string) -> real)
    ensures IsBadWord(text, badwords, ratio) <==>
      exists k :: 0 <= k < |badwords| && Hits(Normalize(text), badwords[k], ratio)
  {
    AnyHitSpec(Normalize(text), badwords, ratio);
  }

  /** A short phrase (three characters or fewer) matches a token only when equal to it. */
  lemma {:induction false} ShortPhraseExact(word: string, bad: string, ratio: (string, string) -> real)
    requires |bad| <= 3
    ensures TokenMatches(word, bad, ratio) <==> word == bad
  {
  }

  /**
   * A token of the normalised text equal to a banned phrase is always caught,
   * as long as the similarity of a string with itself is 1.
   */
  lemma {:induction false} EqualTokenCaught(text: string, badwords: seq<string>, k: nat, j: nat, ratio: (string, string) -> real)
    requires k < |badwords| && j < |Words(Normalize(text))|
    requires Words(Normalize(text))[j] == badwords[k]
    requires ratio(badwords[k], badwords[k]) == 1.0
    ensures IsBadWord(text, badwords, ratio)
  {
    assert TokenMatches(Words(Normalize(text))[j], badwords[k], ratio);
    assert Hits(Normalize(text), badwords[k], ratio);
    IsBadWordSpec(text, badwords, ratio);
  }

  /** A banned phrase that is the whole normalised text is caught by the bounded search. */
  lemma {:induction false} WholeTextCaught(text: string, badwords: seq<string>, k: nat, ratio: (string, string) -> real)
    requires k < |badwords| && Normalize(text) == badwords[k]
    ensures IsBadWord(text, badwords, ratio)
  {
    assert PhraseAt(Normalize(text), badwords[k], 0);
    assert Hits(Normalize(text), badwords[k], ratio);
    IsBadWordSpec(text, badwords, ratio);
  }

  lemma {:induction false} EmptyListNeverHits(text: string, ratio: (string, string) -> real)
    ensures !IsBadWord(text, [], ratio)
  {
  }
}
