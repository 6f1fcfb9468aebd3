/**
 * The normaliser/vectoriser `nettoyer_et_vectoriser`: lower-case the text,
 * scan its word-character runs, drop stopwords and tokens of at most two
 * characters, and count the rest into a bag of terms (a `Counter`).
 *
 * A `Counter` is a dictionary, whose keys keep their insertion order; it is
 * modelled as that ordered list of (term, count) pairs.
 */
module Vectorizer {
  import opened Text

  /** The fixed French stopword set of `nettoyer_et_vectoriser`. */
  const Stopwords: set<string> := {
    "le", "la", "les", "de", "du", "des", "un", "une", "et", "ou", "à", "au", "aux", "en", "dans",
    "sur", "pour", "par", "avec", "sans", "sous", "chez", "ce", "cette", "ces", "son", "sa", "ses",
    "mon", "ma", "mes", "ton", "ta", "tes", "je", "tu", "il", "elle", "nous", "vous", "ils", "elles",
    "qui", "que", "quoi", "dont", "où", "quand", "comment", "mais", "est", "sont", "pas", "plus", "très"
  }

  /** The filter of the list comprehension: not a stopword and longer than two characters. */
  predicate Kept(w: string) {
    w !in Stopwords && |w| > 2
  }

  /** The tokens that pass the filter, in their original order. */
  function Survivors(words: seq<string>): (r: seq<string>)
    ensures forall k :: 0 <= k < |r| ==> Kept(r[k]) && r[k] in words
    ensures forall w :: multiset(r)[w] == if Kept(w) then multiset(words)[w] else 0
  {
    if words == [] then []
    else
      assert words == [words[0]] + words[1..];
      if Kept(words[0]) then [words[0]] + Survivors(words[1..])
      else Survivors(words[1..])
  }

  /** One entry of a counter: a term and the number of times it was seen. */
  datatype TermCount = TermCount(term: string, count: nat)

  /** A counter: its entries in the order their terms were first seen. */
  type TermVector = seq<TermCount>

  /** The keys of a counter, `set(counter)`. */
  function Terms(v: TermVector): set<string> {
    if v == [] then {} else {v[0].term} + Terms(v[1..])
  }

  /** What every counter built from a list keeps: each key once, each count at least 1. */
  predicate WellFormed(v: TermVector) {
    v == [] || (v[0].term !in Terms(v[1..]) && v[0].count >= 1 && WellFormed(v[1..]))
  }

  /** `counter[t]`: the count stored for `t`, and 0 when `t` is not a key. */
  function Get(v: TermVector, t: string): nat {
    if v == [] then 0 else if v[0].term == t then v[0].count else Get(v[1..], t)
  }

  /** The sum of all counts. */
  function Total(v: TermVector): nat {
    if v == [] then 0 else v[0].count + Total(v[1..])
  }

  /** `counter[t] += 1`: an existing key is incremented in place, a new key is appended with count 1. */
  function Bump(v: TermVector, t: string): TermVector {
    if v == [] then [TermCount(t, 1)]
    else if v[0].term == t then [TermCount(t, v[0].count + 1)] + v[1..]
    else [v[0]] + Bump(v[1..], t)
  }

  /** `Counter(tokens)`: every token counted, left to right. */
  function Tally(tokens: seq<string>): TermVector {
    if tokens == [] then []
    else Bump(Tally(tokens[..|tokens| - 1]), tokens[|tokens| - 1])
  }

  /** `nettoyer_et_vectoriser(text)` */
  function Vectorize(text: string): TermVector {
    Tally(Survivors(Words(Lower(text))))
  }

  lemma {:induction false} GetOutside(v: TermVector, t: string)
    requires t !in Terms(v)
    ensures Get(v, t) == 0
  {
    if v != [] {
      GetOutside(v[1..], t);
    }
  }

  /** Incrementing a key keeps the counter well formed and changes exactly that key's count by one. */
  lemma {:induction false} BumpCounts(v: TermVector, t: string)
    requires WellFormed(v)
    ensures WellFormed(Bump(v, t))
    ensures Terms(Bump(v, t)) == Terms(v) + {t}
    ensures forall u :: Get(Bump(v, t), u) == Get(v, u) + (if u == t then 1 else 0)
    ensures Total(Bump(v, t)) == Total(v) + 1
  {
    if v == [] {
    } else if v[0].term == t {
      GetOutside(v[1..], t);
      assert Bump(v, t)[1..] == v[1..];
    } else {
      BumpCounts(v[1..], t);
      assert Bump(v, t)[1..] == Bump(v[1..], t);
    }
  }

  /** `Counter(tokens)` holds each distinct token once, with its number of occurrences. */
  lemma {:induction false} TallyCounts(tokens: seq<string>)
    ensures WellFormed(Tally(tokens))
    ensures Terms(Tally(tokens)) == set t | t in tokens
    ensures forall t :: Get(Tally(tokens), t) == multiset(tokens)[t]
    ensures Total(Tally(tokens)) == |tokens|
  {
    if tokens != [] {
      var n := |tokens| - 1;
      var init, last := tokens[..n], tokens[n];
      assert tokens == init + [last];
      TallyCounts(init);
      BumpCounts(Tally(init), last);
      assert multiset(tokens) == multiset(init) + multiset{last};
      assert (set t | t in tokens) == (set t | t in init) + {last};
    }
  }

  /**
   * What the vectoriser returns: a well-formed counter whose keys are
   * lower-case word tokens longer than two characters that are not stopwords,
   * each counted as often as it occurs among the scanned tokens of the
   * lower-cased text; so the counts add up to the number of surviving tokens.
   */
  lemma {:induction false} VectorizeCounts(text: string)
    ensures WellFormed(Vectorize(text))
    ensures forall t :: t in Terms(Vectorize(text)) ==>
      && IsWord(t) && IsLowerText(t) && Kept(t) && t in Words(Lower(text)) && Get(Vectorize(text), t) >= 1
    ensures forall t :: Get(Vectorize(text), t) == if Kept(t) then multiset(Words(Lower(text)))[t] else 0
    ensures Total(Vectorize(text)) == |Survivors(Words(Lower(text)))|
  {
    var words := Words(Lower(text));
    TallyCounts(Survivors(Words(Lower(text))));
    LowerIsLower(text);
    WordsOfLowerText(Lower(text));
    forall t | t in Terms(Vectorize(text))
      ensures IsWord(t) && IsLowerText(t) && Kept(t) && t in words
    {
      assert t in Survivors(Words(Lower(text)));
      var k :| 0 <= k < |Survivors(Words(Lower(text)))| && Survivors(Words(Lower(text)))[k] == t;
      var j :| 0 <= j < |words| && words[j] == t;
    }
  }

  lemma {:induction false} SurvivorsEmpty(words: seq<string>)
    ensures Survivors(words) == [] <==> forall k :: 0 <= k < |words| ==> !Kept(words[k])
  {
    if words != [] {
      SurvivorsEmpty(words[1..]);
      assert forall k :: 1 <= k < |words| ==> words[k] == words[1..][k - 1];
    }
  }

  lemma {:induction false} TallyEmpty(tokens: seq<string>)
    ensures Tally(tokens) == [] <==> tokens == []
  {
    TallyCounts(tokens);
  }

  lemma {:induction false} VectorizeEmptyTokens(text: string)
    ensures Vectorize(text) == [] <==> Survivors(Words(Lower(text))) == []
  {
    TallyEmpty(Survivors(Words(Lower(text))));
  }

  /** The vector is empty exactly when no scanned token survives the filter (empty, all-stopword or all-short text). */
  lemma {:induction false} VectorizeEmpty(text: string)
    ensures Vectorize(text) == [] <==> forall k :: 0 <= k < |Words(Lower(text))| ==> !Kept(Words(Lower(text))[k])
  {
    SurvivorsEmpty(Words(Lower(text)));
    VectorizeEmptyTokens(text);
  }

  /** Vectorising an empty text gives the empty vector. */
  lemma {:induction false} VectorizeEmptyText()
    ensures Vectorize("") == []
  {
    VectorizeEmpty("");
  }

  /** Lower-casing the text first does not change the vector. */
  lemma {:induction false} VectorizeLowerInvariant(text: string)
    ensures Vectorize(Lower(text)) == Vectorize(text)
  {
    LowerIsLower(text);
  }

  /** Re-vectorising the lower-cased words joined by spaces gives the same vector. */
  lemma {:induction false} VectorizeNormalized(text: string)
    ensures Vectorize(Unwords(Words(Lower(text)))) == Vectorize(text)
  {
    var words := Words(Lower(text));
    LowerIsLower(text);
    WordsOfLowerText(Lower(text));
    UnwordsOfLowerText(words);
    LowerOfLowerText(Unwords(words));
    WordsOfUnwords(words);
  }
}
