# NIRD semantic search: the retrieval engine

This project models the retrieval engine of the NIRD semantic search API
(`module.py`). The engine answers a free-text question from a fixed corpus of
text chunks in five steps:

- **Vectorising.** `nettoyer_et_vectoriser` lower-cases a text, scans its runs
  of word characters, drops French stopwords and tokens of at most two
  characters, and counts the rest in a `Counter`.
- **Indexing.** Every chunk text is vectorised once, at start-up.
- **Scoring.** `cosine_similarity` compares the question's bag of terms with
  every chunk's bag. For each strong topic keyword that occurs in the
  lower-cased question, the route adds 0.18 to every chunk's score.
- **Selecting.** The first chunk with the greatest score is kept, starting from
  0.0 and comparing with a strict `>`. It is accepted when its score is
  strictly above 0.12.
- **Shaping the reply.** A matched text longer than 600 characters is cut
  before the last space among its first 600 characters, and `"..."` is
  appended. Without a match the route returns a fixed fallback record. A
  blank question is rejected.

Modules, one per part of the engine:

- `Wrappers` (`wrappers.dfy`): `Option` and `Result`.
- `Text` (`text.dfy`): the Python string operations the engine relies on:
  `str.lower()`, `str.strip()`, the `in` substring test, and
  `re.findall(r'\w+', …)`.
- `Vectorizer` (`vectorizer.dfy`): the vectoriser. A `Counter` is modelled as
  its insertion-ordered list of (term, count) entries.
- `Similarity` (`similarity.dfy`): cosine similarity over exact reals. The
  square root is a parameter `sqrt`. The lemmas that depend on its values
  require `IsSqrt(sqrt)`, which says it is the exact non-negative root.
- `Search` (`search.dfy`): the index, the strong-term bonus, the selection
  loop (`Rank`, proved against the fold `Select`), truncation (`Clip`), and the
  route (`Ask`, proved against `Answer`). The index is an explicit `Engine`
  value. In the source it is a pair of module globals.

Details of the code that the model keeps:

- The route rejects a question that is blank after `strip()` (HTTP 400
  "Question vide"), modelled as `Failure(EmptyQuestion)`.
- Truncation backs up to the last `' '` (U+0020) only, as `rsplit(' ', 1)`
  does, not to any other whitespace character.
- The bonus test looks for each strong term in the stripped question,
  lower-cased.
- Tokens are runs of `\w`, so `_` counts as a word character.

## Model

| member | source | states |
|---|---|---|
| Text.Strip | module.py:79 | `strip()` returns the slice from the first to the last non-whitespace character; everything outside it is whitespace; the result is empty iff the text is all whitespace |
| Text.Lower | module.py:29 | `lower()` keeps the length, leaves no upper-case letter, and keeps every character's class (word character, whitespace), so it never moves a token boundary |
| Text.LowerIsLower | module.py:29 | `lower()` is idempotent |
| Text.LowerTextIffNoUpper | module.py:29 | a text is left unchanged by `lower()` iff it holds no upper-case letter |
| Text.Contains | module.py:94 | `mot in question_lower`: the empty string is in every string, and a string longer than the text is never in it |
| Text.Words | module.py:30 | every token `re.findall(r'\w+', …)` returns is a non-empty run of word characters |
| Text.WordsSplit | module.py:30 | a non-word character separates: the tokens of `a + c + b` are the tokens of `a` followed by those of `b` |
| Text.WordsEmpty | module.py:30 | no token is found iff the text holds no word character |
| Text.WordsOfWord | module.py:30 | a single run of word characters is one token, found whole (with `WordsSplit` and `WordsEmpty` this fixes the tokens of every text: the maximal runs, in order, none missed) |
| Text.WordsOfUnwords | module.py:30 | scanning the words back out of `' '.join(words)` returns the same words |
| Vectorizer.Survivors | module.py:37 | the filter keeps exactly the tokens that are not stopwords and have more than two characters, each as many times as it occurs |
| Vectorizer.Tally | module.py:38 | `Counter(tokens)`, built by incrementing one key per token; `TallyCounts` and `TallyEmpty` state its contents |
| Vectorizer.TallyEmpty | module.py:38 | the counter is empty iff there are no tokens |
| Vectorizer.TallyCounts | module.py:38 | `Counter(tokens)` holds each distinct token once, with its number of occurrences; the counts add up to the number of tokens |
| Vectorizer.Vectorize | module.py:28-38 | `nettoyer_et_vectoriser`: the counter of the filtered tokens of the lower-cased text; `VectorizeCounts` and the lemmas below state its contents |
| Vectorizer.VectorizeCounts | module.py:28-38 | every term of the vector is a lower-case word token of more than two characters and not a stopword; its count is at least 1 and equals its occurrences among the scanned tokens; the counts add up to the number of surviving tokens |
| Vectorizer.VectorizeEmpty | module.py:28-38 | the vector is empty iff no scanned token survives the filter, as for empty, all-stopword or all-short texts |
| Vectorizer.VectorizeEmptyText | module.py:28-38 | the empty text gives the empty vector |
| Vectorizer.VectorizeLowerInvariant | module.py:29 | lower-casing the text first does not change the vector |
| Vectorizer.VectorizeNormalized | module.py:28-38 | re-vectorising the lower-cased words joined by spaces gives the same vector |
| Similarity.Dot | module.py:44 | the numerator is 0 when the two bags share no term; `DotPositive`, `DotSymmetric` and `DotBound` state the rest |
| Similarity.DotPositive | module.py:41-44 | the numerator is positive iff the two bags share a term |
| Similarity.DotSymmetric | module.py:44 | the numerator does not depend on the order of the two bags |
| Similarity.DotBound | module.py:44-45 | the square of the numerator is at most the product of the two sums of squares (Cauchy-Schwarz) |
| Similarity.NormSquare | module.py:45 | with an exact root, each norm is non-negative and squares to the sum of squared counts |
| Similarity.Cosine | module.py:40-46 | `cosine_similarity`; the `Cosine*` lemmas below state that it is 0.0 without a common term, lies in [0.0, 1.0], is symmetric, is positive iff the bags share a term, and is 1.0 on a non-empty bag and itself |
| Similarity.CosineDisjoint | module.py:41-43 | the similarity is 0.0 when the bags share no term |
| Similarity.CosineNonNegative | module.py:40-46 | the similarity is never negative |
| Similarity.CosineSymmetric | module.py:40-46 | the similarity is symmetric in its two arguments |
| Similarity.DenominatorPositive | module.py:45-46 | for two non-empty bags the denominator is positive; a bag that shares a term is non-empty, so on vectoriser bags the `den != 0` guard never fires (an empty bag already returns 0.0 at lines 42-43) |
| Similarity.CosinePositive | module.py:40-46 | the similarity of two vectoriser bags is positive iff they share a term |
| Similarity.CosineSelf | module.py:40-46 | a non-empty bag has similarity 1.0 with itself |
| Similarity.CosineAtMostOne | module.py:40-46 | the similarity is at most 1.0 |
| Search.Build | module.py:50 | the index holds, position by position, the vector of each chunk's text |
| Search.IndexWellFormed | module.py:50 | every indexed vector is a well-formed counter of lower-case, filtered terms |
| Search.Hits | module.py:93-95 | the count is exactly the number of terms that occur in the question; so it is at most their number, 0 iff none occurs, and all of them iff all occur |
| Search.HitsStep | module.py:93-95 | looking at one more term adds one to the count exactly when that term occurs |
| Search.StrongBonus | module.py:88-95 | the bonus of one query lies between 0 and 0.18 times the number of strong terms |
| Search.StrongBonusPositive | module.py:93-95 | the bonus is positive iff the lower-cased question contains a strong term |
| Search.BoostedScore | module.py:91-95 | one chunk's score is its cosine plus 0.18 per strong term in the question, the same bonus for every chunk |
| Search.Select | module.py:85-86 | the fold keeps a score of at least 0.0 and at least every score; no chunk leaves it at 0.0; a picked chunk holds the first greatest score, and that score is positive |
| Search.SelectCharacterized | module.py:96-98 | a position is picked iff it holds the first greatest score and that score is positive; nothing is picked iff no score is positive |
| Search.FirstMaxShifted | module.py:93-98 | adding the same amount to every score does not move the first greatest score |
| Search.BonusKeepsWinner | module.py:90-98 | the chunk picked under any bonus is the first with the greatest raw cosine; a positive bonus over a non-empty corpus always picks one |
| Search.SelectFirstOnTies | module.py:96 | when all scores are equal and positive, as with a positive bonus and all cosines 0, the first chunk is picked |
| Search.CosinesNonNegative | module.py:91 | every raw score of a query is non-negative |
| Search.Rank | module.py:85-98 | the scoring loop ends with exactly the best score and position of the fold `Select` over the boosted scores |
| Search.LastSpace | module.py:104 | finds the last `' '`, and finds none iff the text has no space |
| Search.BeforeLastSpace | module.py:104 | `rsplit(' ', 1)[0]` is a prefix of the text: all of it when it has no space, otherwise the part before its last space |
| Search.Clip | module.py:102-104 | a text of at most 600 characters is kept; a longer one becomes a prefix of at most 600 characters followed by `"..."`; the result has at most 603 characters |
| Search.ClipCut | module.py:104 | a long text is cut exactly at the last space among its first 600 characters (for example at 590 in a 650-character text) |
| Search.ClipNoSpace | module.py:104 | without a space in the first 600 characters all 600 are kept |
| Search.Found | module.py:102-113 | the reply for the picked chunk: its stripped text clipped, the score as confidence, its id, URL and title; `AnswerFound` states it |
| Search.Fallback | module.py:115-123 | the fixed reply: id -1, confidence 0.0, the fixed text, URL and title; `AnswerThreshold` states when it is returned |
| Search.Answer | module.py:78-123 | what the route answers; the `Answer*` lemmas below state its behaviour, and `Ask` is proved equal to it |
| Search.Ask | module.py:78-123 | the route answers exactly as `Answer`: reject a blank question, rank, then return the clipped match or the fallback |
| Search.AnswerRejectsBlank | module.py:79-81 | a question is rejected iff it is empty or all whitespace; an answered one carries the stripped question |
| Search.AnswerThreshold | module.py:101-123 | the fallback record (id -1, confidence 0.0, fixed text, URL and title) is returned iff the best score is not above 0.12 |
| Search.AnswerFound | module.py:96-113 | above the threshold, the reply is the first chunk with the greatest boosted score, with that score as confidence, its stripped text clipped to at most 603 characters, and its id, URL and title |
| Search.AnswerEmptyCorpus | module.py:85-101 | with no chunks every non-blank question gets the fallback |
| Search.AnswerNoVocabulary | module.py:83-101 | a question with no surviving term and no strong term gets the fallback |
| Search.AnswerStrongTerm | module.py:88-113 | a question containing a strong term always gets a chunk from a non-empty corpus, namely the first with the greatest raw cosine |
| Search.ReconditioningScenario | module.py:78-113 | with one chunk about reconditioning, "Comment faire du reconditionnement ?" returns chunk 1 |

## Left out

- Loading the corpus from `larousse_tokens.json` (module.py:20-23). The chunk sequence is a parameter of `Search.Build`.
- Chunk records with a missing field (a `KeyError` in the source). Every `Chunk` has all four fields.
- The `print` calls (module.py:49, 51), the FastAPI application and its pydantic declarations (module.py:56-72), and the home route (module.py:126-132).
- The request timestamps `datetime.now().isoformat()` (module.py:112, 122). `Response` has no timestamp field.
- `scrap.py` as a whole: HTTP routes, scraping, chunking, export and statistics over files. It is network and file plumbing over libraries that are not part of this model.
- Search.AnswerFound: the confidence is the exact best score. `round(score, 3)` is not modelled.
- Search.Found: the confidence is the exact score, for the same reason.
- Floating point. Scores are exact reals, so the repeated `score += 0.18` is exactly `0.18 * k`. Comparisons that float rounding would tip at the boundaries 0.12 and 0.0 are not modelled.
- `math.sqrt` is a parameter. Every property that depends on its values requires it to be the exact non-negative square root.
- Text.Words: `\w` and `str.lower()` are modelled for ASCII, the Latin-1 Supplement and Latin Extended-A, which cover French. Other characters are treated as non-word characters and are left unchanged by lower-casing. U+0130, which Python lower-cases to two characters, is left unchanged.
- The order in which a `Counter` lists its keys matters only to the floating-point sums. With exact arithmetic the numerator does not depend on it.
