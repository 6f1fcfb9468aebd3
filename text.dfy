/**
 * The string primitives the engine relies on: `str.lower()`, `str.strip()`,
 * the `in` substring test, and the scanner `re.findall(r'\w+', s)`.
 *
 * Strings are sequences of Unicode scalar values, as Python's `str` is, so
 * lengths agree with Python's `len`. Whitespace is Python's `str.isspace()`
 * set exactly. Case mapping and the `\w` class are modelled for ASCII, the
 * Latin-1 Supplement and Latin Extended-A (which together cover French); every
 * other character is left unchanged by `LowerChar` and is not a word character.
 */
module Text {

  /** Python's `str.isspace()`: the characters `str.strip()` removes. */
  predicate IsSpace(c: char) {
    || '\t' <= c <= '\r'
    || '\U{1C}' <= c <= ' '
    || c == '\U{85}' || c == '\U{A0}' || c == '\U{1680}'
    || '\U{2000}' <= c <= '\U{200A}'
    || c == '\U{2028}' || c == '\U{2029}' || c == '\U{202F}' || c == '\U{205F}' || c == '\U{3000}'
  }

  /** Upper-case letters of Latin Extended-A whose lower-case form is the next code point. */
  predicate IsUpperExtendedA(c: char) {
    var n := c as int;
    || ((0x100 <= n < 0x130 || 0x132 <= n < 0x138 || 0x14A <= n < 0x178) && n % 2 == 0)
    || ((0x139 <= n < 0x149 || 0x179 <= n < 0x17F) && n % 2 == 1)
  }

  /** `c.lower()` on the modelled ranges (U+0130, which Python maps to two characters, is left as is). */
  function LowerChar(c: char): char {
    if 'A' <= c <= 'Z' || ('\U{C0}' <= c <= '\U{DE}' && c != '\U{D7}') then (c as int + 32) as char
    else if c == '\U{178}' then '\U{FF}'
    else if IsUpperExtendedA(c) then (c as int + 1) as char
    else c
  }

  /** The upper-case letters of the modelled ranges: exactly the characters `LowerChar` changes. */
  predicate IsUpper(c: char) {
    || 'A' <= c <= 'Z' || ('\U{C0}' <= c <= '\U{DE}' && c != '\U{D7}')
    || c == '\U{178}' || IsUpperExtendedA(c)
  }

  /** The characters `\w` matches on the modelled ranges: letters, digits, `_`. */
  predicate IsWordChar(c: char) {
    || 'a' <= c <= 'z' || 'A' <= c <= 'Z' || '0' <= c <= '9' || c == '_'
    || c == '\U{AA}' || c == '\U{B2}' || c == '\U{B3}' || c == '\U{B5}' || c == '\U{B9}' || c == '\U{BA}'
    || '\U{BC}' <= c <= '\U{BE}'
    || ('\U{C0}' <= c <= '\U{17F}' && c != '\U{D7}' && c != '\U{F7}')
  }

  /** Lower-casing is idempotent and neither creates nor destroys word characters. */
  lemma LowerCharFacts(c: char)
    ensures LowerChar(LowerChar(c)) == LowerChar(c)
    ensures IsWordChar(LowerChar(c)) == IsWordChar(c)
    ensures IsSpace(LowerChar(c)) == IsSpace(c)
  {
  }

  /**
   * `s.lower()`: the same number of characters, none of them upper-case, and
   * every character keeps its class (word character, whitespace), so
   * lower-casing never moves a token boundary.
   */
  function Lower(s: string): (r: string)
    ensures |r| == |s|
    ensures forall i :: 0 <= i < |r| ==> !IsUpper(r[i])
    ensures forall i :: 0 <= i < |r| ==> IsWordChar(r[i]) == IsWordChar(s[i]) && IsSpace(r[i]) == IsSpace(s[i])
  {
    seq(|s|, i requires 0 <= i < |s| => LowerChar(s[i]))
  }

  /** A text that `lower()` leaves unchanged. */
  predicate IsLowerText(s: string) {
    forall i :: 0 <= i < |s| ==> LowerChar(s[i]) == s[i]
  }

  lemma {:induction false} LowerIsLower(s: string)
    ensures IsLowerText(Lower(s))
    ensures Lower(Lower(s)) == Lower(s)
  {
    forall i | 0 <= i < |s| ensures LowerChar(Lower(s)[i]) == Lower(s)[i] {
      LowerCharFacts(s[i]);
    }
  }

  /** A text is left unchanged by `lower()` exactly when it holds no upper-case letter. */
  lemma {:induction false} LowerTextIffNoUpper(s: string)
    ensures IsLowerText(s) <==> forall i :: 0 <= i < |s| ==> !IsUpper(s[i])
  {
  }

  lemma {:induction false} LowerOfLowerText(s: string)
    requires IsLowerText(s)
    ensures Lower(s) == s
  {
  }

  /** The number of whitespace characters `strip()` removes at the front. */
  function LeadingSpaces(s: string): (n: nat)
    ensures n <= |s|
    ensures forall i :: 0 <= i < n ==> IsSpace(s[i])
    ensures n < |s| ==> !IsSpace(s[n])
  {
    if s == [] || !IsSpace(s[0]) then 0 else 1 + LeadingSpaces(s[1..])
  }

  /** The number of whitespace characters `strip()` removes at the back. */
  function TrailingSpaces(s: string): (n: nat)
    ensures n <= |s|
    ensures forall i :: |s| - n <= i < |s| ==> IsSpace(s[i])
    ensures n < |s| ==> !IsSpace(s[|s| - 1 - n])
  {
    if s == [] || !IsSpace(s[|s| - 1]) then 0 else 1 + TrailingSpaces(s[..|s| - 1])
  }

  /**
   * `s.strip()`: the slice of `s` that starts at its first non-whitespace
   * character and ends at its last one; everything outside it is whitespace.
   */
  function Strip(s: string): (r: string)
    ensures LeadingSpaces(s) + |r| <= |s|
    ensures r == s[LeadingSpaces(s) .. LeadingSpaces(s) + |r|]
    ensures forall i :: 0 <= i < |s| && !(LeadingSpaces(s) <= i < LeadingSpaces(s) + |r|) ==> IsSpace(s[i])
    ensures r != [] ==> !IsSpace(r[0]) && !IsSpace(r[|r| - 1])
    ensures r == [] <==> forall i :: 0 <= i < |s| ==> IsSpace(s[i])
  {
    var rest := s[LeadingSpaces(s)..];
    rest[..|rest| - TrailingSpaces(rest)]
  }

  /** `needle` occurs in `haystack` starting at index `i`. */
  predicate OccursAt(haystack: string, needle: string, i: int) {
    0 <= i <= |haystack| - |needle| && haystack[i..i + |needle|] == needle
  }

  /** Python's `needle in haystack` on strings: the empty string is in every string, a longer one in none. */
  predicate Contains(haystack: string, needle: string): (b: bool)
    ensures needle == [] ==> b
    ensures b ==> |needle| <= |haystack|
  {
    assert needle == [] ==> haystack[0..0] == needle && OccursAt(haystack, needle, 0);
    exists i :: 0 <= i <= |haystack| - |needle| && OccursAt(haystack, needle, i)
  }

  /** A non-empty run of word characters. */
  predicate IsWord(w: string) {
    w != [] && forall i :: 0 <= i < |w| ==> IsWordChar(w[i])
  }

  /** The length of the run of word characters at the front of `s`. */
  function WordRun(s: string): (n: nat)
    ensures n <= |s|
    ensures forall i :: 0 <= i < n ==> IsWordChar(s[i])
    ensures n < |s| ==> !IsWordChar(s[n])
  {
    if s == [] || !IsWordChar(s[0]) then 0 else 1 + WordRun(s[1..])
  }

  /**
   * `re.findall(r'\w+', s)`: scanning left to right, every maximal run of
   * word characters, in order; all other characters only separate them.
   */
  function Words(s: string): (ws: seq<string>)
    ensures forall k :: 0 <= k < |ws| ==> IsWord(ws[k])
    decreases |s|
  {
    if s == [] then []
    else if !IsWordChar(s[0]) then Words(s[1..])
    else
      var n := WordRun(s);
      [s[..n]] + Words(s[n..])
  }

  /** Every word of a text that `lower()` leaves unchanged is left unchanged too. */
  lemma {:induction false} WordsOfLowerText(s: string)
    requires IsLowerText(s)
    ensures forall k :: 0 <= k < |Words(s)| ==> IsLowerText(Words(s)[k])
    decreases |s|
  {
    if s == [] {
    } else if !IsWordChar(s[0]) {
      WordsOfLowerText(s[1..]);
    } else {
      var n := WordRun(s);
      WordsOfLowerText(s[n..]);
    }
  }

  /** A run of word characters stops at the first non-word character, whatever follows it. */
  lemma {:induction false} WordRunSplit(a: string, c: char, b: string)
    requires !IsWordChar(c)
    ensures WordRun(a + [c] + b) == WordRun(a)
    decreases |a|
  {
    if a == [] {
    } else if IsWordChar(a[0]) {
      assert (a + [c] + b)[1..] == a[1..] + [c] + b;
      WordRunSplit(a[1..], c, b);
    }
  }

  /** A non-word character separates: the words of `a + [c] + b` are those of `a`, then those of `b`. */
  lemma {:induction false} WordsSplit(a: string, c: char, b: string)
    requires !IsWordChar(c)
    ensures Words(a + [c] + b) == Words(a) + Words(b)
    decreases |a|
  {
    var s := a + [c] + b;
    if a == [] {
      assert s[1..] == b;
    } else if !IsWordChar(a[0]) {
      assert s[1..] == a[1..] + [c] + b;
      WordsSplit(a[1..], c, b);
    } else {
      var n := WordRun(a);
      WordRunSplit(a, c, b);
      assert s[..n] == a[..n];
      assert s[n..] == a[n..] + [c] + b;
      WordsSplit(a[n..], c, b);
    }
  }

  /** `re.findall(r'\w+', s)` is empty exactly when `s` holds no word character. */
  lemma {:induction false} WordsEmpty(s: string)
    ensures Words(s) == [] <==> forall i :: 0 <= i < |s| ==> !IsWordChar(s[i])
    decreases |s|
  {
    if s != [] && !IsWordChar(s[0]) {
      WordsEmpty(s[1..]);
      assert forall i :: 1 <= i < |s| ==> s[i] == s[1..][i - 1];
    }
  }

  /** A single run of word characters is found whole, as one token. */
  lemma {:induction false} WordsOfWord(w: string)
    requires IsWord(w)
    ensures Words(w) == [w]
  {
    WordsOfWordThen(w, []);
    assert w + [] == w;
  }

  /** The words joined by single spaces: `' '.join(ws)`. */
  function Unwords(ws: seq<string>): string {
    if ws == [] then []
    else if |ws| == 1 then ws[0]
    else ws[0] + " " + Unwords(ws[1..])
  }

  lemma {:induction false} WordRunOfWord(w: string, t: string)
    requires IsWord(w)
    requires t == [] || !IsWordChar(t[0])
    ensures WordRun(w + t) == |w|
    decreases |w|
  {
    if |w| > 1 {
      assert (w + t)[1..] == w[1..] + t;
      WordRunOfWord(w[1..], t);
    }
  }

  lemma {:induction false} WordsOfWordThen(w: string, t: string)
    requires IsWord(w)
    requires t == [] || !IsWordChar(t[0])
    ensures Words(w + t) == [w] + Words(t)
  {
    WordRunOfWord(w, t);
    assert (w + t)[..|w|] == w;
    assert (w + t)[|w|..] == t;
  }

  /** Scanning the words back out of `' '.join(ws)` gives `ws` again. */
  lemma {:induction false} WordsOfUnwords(ws: seq<string>)
    requires forall k :: 0 <= k < |ws| ==> IsWord(ws[k])
    ensures Words(Unwords(ws)) == ws
  {
    if ws == [] {
    } else if |ws| == 1 {
      WordsOfWordThen(ws[0], []);
      assert ws[0] + [] == ws[0];
    } else {
      var rest := Unwords(ws[1..]);
      assert ws[0] + " " + rest == ws[0] + (" " + rest);
      WordsOfWordThen(ws[0], " " + rest);
      assert (" " + rest)[1..] == rest;
      WordsOfUnwords(ws[1..]);
    }
  }

  /** Joining lower-case words by spaces gives a lower-case text. */
  lemma {:induction false} UnwordsOfLowerText(ws: seq<string>)
    requires forall k :: 0 <= k < |ws| ==> IsLowerText(ws[k])
    ensures IsLowerText(Unwords(ws))
  {
    if |ws| > 1 {
      UnwordsOfLowerText(ws[1..]);
      var j := ws[0] + " " + Unwords(ws[1..]);
      forall i | 0 <= i < |j| ensures LowerChar(j[i]) == j[i] {
        if i < |ws[0]| {
          assert j[i] == ws[0][i];
        } else if i > |ws[0]| {
          assert j[i] == Unwords(ws[1..])[i - |ws[0]| - 1];
        }
      }
    }
  }
}
