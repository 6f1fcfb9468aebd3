/**
 * The query route `chercher_dans_nird` over the precomputed index: strip the
 * question, score every chunk vector by cosine similarity plus a bonus for
 * each strong term the question mentions, keep the first best score, accept it
 * above the threshold, clip the matched text, or answer with the fixed
 * fallback record.
 *
 * The corpus and its vectors, module globals in the source, are an explicit
 * `Engine` value built once from the chunks. The request timestamp, the
 * rounding of the confidence and the HTTP layer are not modelled.
 */
module Search {
  import opened Wrappers
  import opened Text
  import opened Vectorizer
  import opened Similarity

  // ---------------------------------------------------------------------
  // Data
  // ---------------------------------------------------------------------

  /** One record of the corpus file. */
  datatype Chunk = Chunk(chunkId: int, text: string, sourceUrl: string, sourceTitle: string)

  /** The corpus and, at the same positions, the vectors of the chunk texts. */
  datatype Engine = Engine(chunks: seq<Chunk>, vectors: seq<TermVector>) {
    /** Every vector is the vectoriser's output for the text of the chunk at its position. */
    ghost predicate Valid() {
      && |vectors| == |chunks|
      && forall i :: 0 <= i < |chunks| ==> vectors[i] == Vectorize(chunks[i].text)
    }
  }

  /** The reply of the route (the timestamp is left out). */
  datatype Response = Response(
    question: string,
    context: string,
    confidence: real,
    chunkId: int,
    sourceUrl: string,
    sourceTitle: string)

  /** The one error the route raises: HTTP 400 "Question vide". */
  datatype QueryError = EmptyQuestion

  /** The running best of the selection loop: its score and the position of its chunk, if any. */
  datatype Best = Best(score: real, chunk: Option<nat>)

  // ---------------------------------------------------------------------
  // Constants
  // ---------------------------------------------------------------------

  /** `mots_forts`, the topic keywords that earn a bonus. */
  const StrongTerms: seq<string> := [
    "linux", "reconditionnement", "nird", "primtux", "tchap", "écologique",
    "libre", "inclusif", "durable", "obsolescence", "forge"
  ]

  /** The bonus added once per strong term found in the question. */
  const BonusStep: real := 0.18

  /** A best score must be strictly above this to be accepted. */
  const Threshold: real := 0.12

  /** Matched texts longer than this are clipped. */
  const MaxContext: nat := 600

  const Ellipsis: string := "..."

  const FallbackText: string :=
    "La démarche NIRD promeut un numérique Inclusif, Responsable et Durable dans les établissements scolaires via Linux, le reconditionnement et les logiciels libres."
  const FallbackUrl: string := "https://nird.forge.apps.education.fr/"
  const FallbackTitle: string := "Accueil"

  // ---------------------------------------------------------------------
  // Index construction
  // ---------------------------------------------------------------------

  /** `vecteurs_chunks = [nettoyer_et_vectoriser(c["text"]) for c in chunks]` */
  function Build(chunks: seq<Chunk>): (e: Engine)
    ensures e.Valid() && e.chunks == chunks
  {
    Engine(chunks, seq(|chunks|, i requires 0 <= i < |chunks| => Vectorize(chunks[i].text)))
  }

  /** Every vector of a valid engine is a well-formed counter of filtered terms. */
  lemma {:induction false} IndexWellFormed(e: Engine, i: nat)
    requires e.Valid() && i < |e.vectors|
    ensures WellFormed(e.vectors[i])
    ensures forall t :: t in Terms(e.vectors[i]) ==> Kept(t) && IsLowerText(t)
  {
    VectorizeCounts(e.chunks[i].text);
  }

  // ---------------------------------------------------------------------
  // The strong-term bonus
  // ---------------------------------------------------------------------

  /** The positions of the `terms` that occur in `q`. */
  ghost function Occurring(q: string, terms: seq<string>): set<nat> {
    set i: nat | i < |terms| && Contains(q, terms[i])
  }

  /** The number of `terms` that occur in `q`, counted left to right as the bonus loop does. */
  function Hits(q: string, terms: seq<string>): (n: nat)
    ensures n == |Occurring(q, terms)|
    ensures n <= |terms|
    ensures n == 0 <==> forall i :: 0 <= i < |terms| ==> !Contains(q, terms[i])
    ensures n == |terms| <==> forall i :: 0 <= i < |terms| ==> Contains(q, terms[i])
  {
    if terms == [] then 0
    else
      var init := terms[..|terms| - 1];
      var last := |terms| - 1;
      assert forall i :: 0 <= i < |init| ==> init[i] == terms[i];
      assert Occurring(q, terms) == Occurring(q, init) + (if Contains(q, terms[last]) then {last} else {});
      Hits(q, init) + (if Contains(q, terms[last]) then 1 else 0)
  }

  /** Looking at one more term adds one hit exactly when that term occurs. */
  lemma {:induction false} HitsStep(q: string, terms: seq<string>, j: nat)
    requires j < |terms|
    ensures Hits(q, terms[..j + 1]) == Hits(q, terms[..j]) + (if Contains(q, terms[j]) then 1 else 0)
  {
    assert terms[..j + 1][..j] == terms[..j];
  }

  /** The bonus one query adds to the score of every chunk. */
  function StrongBonus(question: string): (b: real)
    ensures 0.0 <= b <= BonusStep * (|StrongTerms| as real)
  {
    BonusStep * (Hits(Lower(question), StrongTerms) as real)
  }

  /** The bonus is positive exactly when the lower-cased question contains a strong term. */
  lemma StrongBonusPositive(question: string)
    ensures StrongBonus(question) > 0.0 <==>
      exists i :: 0 <= i < |StrongTerms| && Contains(Lower(question), StrongTerms[i])
  {
    var n := Hits(Lower(question), StrongTerms);
    if n > 0 {
      assert exists i :: 0 <= i < |StrongTerms| && Contains(Lower(question), StrongTerms[i]);
    }
  }

  // ---------------------------------------------------------------------
  // Scores and selection
  // ---------------------------------------------------------------------

  /** The raw cosine similarity of the question with every chunk, in corpus order. */
  function Cosines(sqrt: SquareRoot, vq: TermVector, vectors: seq<TermVector>): (c: seq<real>)
    ensures |c| == |vectors|
  {
    seq(|vectors|, i requires 0 <= i < |vectors| => Cosine(sqrt, vq, vectors[i]))
  }

  /** Every score raised by the same amount. */
  function Shifted(s: seq<real>, b: real): (r: seq<real>)
    ensures |r| == |s|
    ensures forall i :: 0 <= i < |s| ==> r[i] - s[i] == b
  {
    seq(|s|, i requires 0 <= i < |s| => s[i] + b)
  }

  /** The boosted scores of one query: each chunk's cosine plus the same bonus. */
  function Scores(sqrt: SquareRoot, vq: TermVector, vectors: seq<TermVector>, bonus: real): seq<real> {
    Shifted(Cosines(sqrt, vq, vectors), bonus)
  }

  /** `k` holds a greatest score, and every earlier score is strictly smaller. */
  predicate FirstMax(s: seq<real>, k: nat) {
    && k < |s|
    && (forall j :: 0 <= j < |s| ==> s[j] <= s[k])
    && (forall j :: 0 <= j < k ==> s[j] < s[k])
  }

  /**
   * The selection loop as a fold: start from score 0.0 and no chunk, and let
   * a score replace the running best only when it is strictly greater. The
   * result is the first greatest score when that is positive, and nothing
   * otherwise.
   */
  function Select(s: seq<real>): (b: Best)
    ensures b.score >= 0.0
    ensures forall j :: 0 <= j < |s| ==> s[j] <= b.score
    ensures b.chunk.None? ==> b.score == 0.0
    ensures b.chunk.Some? ==> FirstMax(s, b.chunk.value) && b.score == s[b.chunk.value] > 0.0
  {
    if s == [] then Best(0.0, None)
    else
      var n := |s| - 1;
      var prev := Select(s[..n]);
      assert forall j :: 0 <= j < n ==> s[..n][j] == s[j];
      if s[n] > prev.score then Best(s[n], Some(n)) else prev
  }

  /** Two positions that both hold the first greatest score are the same position. */
  lemma FirstMaxUnique(s: seq<real>, k1: nat, k2: nat)
    requires FirstMax(s, k1) && FirstMax(s, k2)
    ensures k1 == k2
  {
    assert s[k1] <= s[k2] && s[k2] <= s[k1];
  }

  /**
   * The selection picks `k` exactly when `k` holds the first greatest score
   * and that score is positive; it picks nothing exactly when no score is
   * positive.
   */
  lemma SelectCharacterized(s: seq<real>, k: nat)
    ensures Select(s) == Best(if k < |s| then s[k] else 0.0, Some(k)) <==> FirstMax(s, k) && s[k] > 0.0
    ensures Select(s).chunk.None? <==> forall j :: 0 <= j < |s| ==> s[j] <= 0.0
  {
    var b := Select(s);
    if FirstMax(s, k) && s[k] > 0.0 {
      assert b.chunk.Some?;
      FirstMaxUnique(s, k, b.chunk.value);
    }
    if b.chunk.Some? {
      assert s[b.chunk.value] > 0.0;
    }
  }

  /** Raising every score by the same amount never moves the first greatest score. */
  lemma FirstMaxShifted(s: seq<real>, b: real, k: nat)
    ensures FirstMax(Shifted(s, b), k) <==> FirstMax(s, k)
  {
    var r := Shifted(s, b);
    if FirstMax(s, k) {
      forall j | 0 <= j < |s| ensures r[j] <= r[k] {
        assert r[j] == s[j] + b;
      }
      forall j | 0 <= j < k ensures r[j] < r[k] {
        assert r[j] == s[j] + b;
      }
    }
    if FirstMax(r, k) {
      forall j | 0 <= j < |s| ensures s[j] <= s[k] {
        assert r[j] == s[j] + b;
      }
      forall j | 0 <= j < k ensures s[j] < s[k] {
        assert r[j] == s[j] + b;
      }
    }
  }

  /**
   * The bonus decides only whether a chunk is picked, never which one: with
   * non-negative raw scores, the chunk picked under any bonus is the first
   * greatest raw score, and a positive bonus over a non-empty corpus always
   * picks it.
   */
  lemma {:induction false} BonusKeepsWinner(c: seq<real>, b: real)
    requires forall j :: 0 <= j < |c| ==> c[j] >= 0.0
    requires b >= 0.0
    ensures Select(Shifted(c, b)).chunk.Some? ==> FirstMax(c, Select(Shifted(c, b)).chunk.value)
    ensures b > 0.0 && c != [] ==> Select(Shifted(c, b)).chunk.Some?
  {
    var r := Shifted(c, b);
    if Select(r).chunk.Some? {
      FirstMaxShifted(c, b, Select(r).chunk.value);
    }
    if b > 0.0 && c != [] {
      assert r[0] > 0.0;
      SelectCharacterized(r, 0);
    }
  }

  /** When all scores are equal and positive, the first chunk is picked. */
  lemma {:induction false} SelectFirstOnTies(s: seq<real>)
    requires s != [] && s[0] > 0.0
    requires forall j :: 0 <= j < |s| ==> s[j] == s[0]
    ensures Select(s) == Best(s[0], Some(0))
  {
    SelectCharacterized(s, 0);
  }

  /** Cosine similarities are never negative, so a positive bonus makes every score positive. */
  lemma {:induction false} CosinesNonNegative(sqrt: SquareRoot, vq: TermVector, vectors: seq<TermVector>)
    requires IsSqrt(sqrt)
    ensures forall j :: 0 <= j < |vectors| ==> Cosines(sqrt, vq, vectors)[j] >= 0.0
  {
    forall j | 0 <= j < |vectors| ensures Cosines(sqrt, vq, vectors)[j] >= 0.0 {
      CosineNonNegative(sqrt, vq, vectors[j]);
    }
  }

  /**
   * The score of one chunk: its cosine with the question, then 0.18 added
   * for each strong term found in the lower-cased question.
   */
  method BoostedScore(sqrt: SquareRoot, vq: TermVector, v: TermVector, question: string) returns (score: real)
    ensures score == Cosine(sqrt, vq, v) + StrongBonus(question)
  {
    score := Cosine(sqrt, vq, v);
    var j := 0;
    while j < |StrongTerms|
      invariant 0 <= j <= |StrongTerms|
      invariant score == Cosine(sqrt, vq, v) + BonusStep * (Hits(Lower(question), StrongTerms[..j]) as real)
    {
      HitsStep(Lower(question), StrongTerms, j);
      if Contains(Lower(question), StrongTerms[j]) {
        score := score + BonusStep;
      }
      j := j + 1;
    }
    assert StrongTerms[..j] == StrongTerms;
  }

  /**
   * The scoring loop of the route: every chunk vector scored in corpus
   * order, a score kept only when strictly above the running best, which
   * starts at 0.0 with no chunk.
   */
  method Rank(sqrt: SquareRoot, vectors: seq<TermVector>, vq: TermVector, question: string)
    returns (bestScore: real, best: Option<nat>)
    ensures Best(bestScore, best) == Select(Scores(sqrt, vq, vectors, StrongBonus(question)))
  {
    ghost var scores := Scores(sqrt, vq, vectors, StrongBonus(question));
    bestScore, best := 0.0, None;
    var i := 0;
    while i < |vectors|
      invariant 0 <= i <= |vectors|
      invariant Best(bestScore, best) == Select(scores[..i])
    {
      var score := BoostedScore(sqrt, vq, vectors[i], question);
      assert score == scores[i];
      assert scores[..i + 1][..i] == scores[..i];
      if score > bestScore {
        bestScore, best := score, Some(i);
      }
      i := i + 1;
    }
    assert scores[..i] == scores;
  }

  // ---------------------------------------------------------------------
  // Shaping the reply
  // ---------------------------------------------------------------------

  /** The position of the last `' '` in `s`, if any. */
  function LastSpace(s: string): (k: Option<nat>)
    ensures k.None? <==> forall i :: 0 <= i < |s| ==> s[i] != ' '
    ensures k.Some? ==> k.value < |s| && s[k.value] == ' ' && forall i :: k.value < i < |s| ==> s[i] != ' '
  {
    if s == [] then None
    else if s[|s| - 1] == ' ' then Some(|s| - 1)
    else
      var init := s[..|s| - 1];
      assert forall i :: 0 <= i < |init| ==> init[i] == s[i];
      LastSpace(init)
  }

  /** `s.rsplit(' ', 1)[0]`: what comes before the last space, or all of `s` when it has none. */
  function BeforeLastSpace(s: string): (r: string)
    ensures |r| <= |s| && r == s[..|r|]
    ensures (forall i :: 0 <= i < |s| ==> s[i] != ' ') ==> r == s
    ensures (exists i :: 0 <= i < |s| && s[i] == ' ') ==>
      |r| < |s| && s[|r|] == ' ' && forall i :: |r| < i < |s| ==> s[i] != ' '
  {
    match LastSpace(s)
    case None => s
    case Some(k) => s[..k]
  }

  /**
   * The context of a match: a text of at most 600 characters as is, a longer
   * one cut to its first 600 characters, then back to before their last
   * space, followed by `"..."`.
   */
  function Clip(t: string): (r: string)
    ensures |r| <= MaxContext + |Ellipsis|
    ensures |t| <= MaxContext ==> r == t
    ensures |t| > MaxContext ==>
      exists n :: 0 <= n <= MaxContext && r == t[..n] + Ellipsis
  {
    if |t| <= MaxContext then t
    else
      var body := BeforeLastSpace(t[..MaxContext]);
      assert body == t[..|body|];
      body + Ellipsis
  }

  /**
   * A long text is cut at the last space among its first 600 characters,
   * never inside the run of non-space characters that follows it; without
   * such a space, all 600 are kept.
   */
  lemma ClipCut(t: string, n: nat)
    requires |t| > MaxContext && n < MaxContext && t[n] == ' '
    requires forall i :: n < i < MaxContext ==> t[i] != ' '
    ensures Clip(t) == t[..n] + Ellipsis
  {
    var head := t[..MaxContext];
    assert head[n] == ' ';
    var body := BeforeLastSpace(head);
    assert head[|body|] == t[|body|];
  }

  lemma ClipNoSpace(t: string)
    requires |t| > MaxContext
    requires forall i :: 0 <= i < MaxContext ==> t[i] != ' '
    ensures Clip(t) == t[..MaxContext] + Ellipsis
  {
  }

  /** The reply for the chunk picked with score `score`. */
  function Found(question: string, c: Chunk, score: real): Response {
    Response(question, Clip(Strip(c.text)), score, c.chunkId, c.sourceUrl, c.sourceTitle)
  }

  /** The fixed reply when no chunk scores above the threshold. */
  function Fallback(question: string): Response {
    Response(question, FallbackText, 0.0, -1, FallbackUrl, FallbackTitle)
  }

  // ---------------------------------------------------------------------
  // The route
  // ---------------------------------------------------------------------

  /** The best of one query on the stripped question `q`. */
  function BestOf(sqrt: SquareRoot, e: Engine, q: string): Best {
    Select(Scores(sqrt, Vectorize(q), e.vectors, StrongBonus(q)))
  }

  /** What `chercher_dans_nird` answers to the raw question `raw`. */
  function Answer(sqrt: SquareRoot, e: Engine, raw: string): Result<Response, QueryError>
    requires e.Valid()
  {
    var q := Strip(raw);
    if q == [] then Failure(EmptyQuestion)
    else
      var best := BestOf(sqrt, e, q);
      if best.score > Threshold && best.chunk.Some? then
        Success(Found(q, e.chunks[best.chunk.value], best.score))
      else
        Success(Fallback(q))
  }

  /** The route: reject a blank question, rank the chunks, then shape the reply. */
  method Ask(sqrt: SquareRoot, e: Engine, raw: string) returns (r: Result<Response, QueryError>)
    requires e.Valid()
    ensures r == Answer(sqrt, e, raw)
  {
    var question := Strip(raw);
    if question == [] {
      return Failure(EmptyQuestion);
    }
    var vq := Vectorize(question);
    var score, best := Rank(sqrt, e.vectors, vq, question);
    if score > Threshold && best.Some? {
      var c := e.chunks[best.value];
      r := Success(Found(question, c, score));
    } else {
      r := Success(Fallback(question));
    }
  }

  // ---------------------------------------------------------------------
  // Properties of the route
  // ---------------------------------------------------------------------

  /** A question is rejected exactly when it is empty or all whitespace; otherwise it is answered stripped. */
  lemma AnswerRejectsBlank(sqrt: SquareRoot, e: Engine, raw: string)
    requires e.Valid()
    ensures Answer(sqrt, e, raw).Failure? <==> forall i :: 0 <= i < |raw| ==> IsSpace(raw[i])
    ensures Answer(sqrt, e, raw).Success? ==> Answer(sqrt, e, raw).value.question == Strip(raw)
  {
  }

  /**
   * A chunk is returned exactly when the best score is strictly above 0.12;
   * otherwise the reply is the fixed fallback record.
   */
  lemma AnswerThreshold(sqrt: SquareRoot, e: Engine, raw: string)
    requires e.Valid() && Strip(raw) != []
    ensures Answer(sqrt, e, raw) == Success(Fallback(Strip(raw))) <==> BestOf(sqrt, e, Strip(raw)).score <= Threshold
  {
  }

  /**
   * A returned chunk is the first one, in corpus order, whose boosted score is
   * greatest; its confidence is that score, and its context is its stripped
   * text, clipped.
   */
  lemma AnswerFound(sqrt: SquareRoot, e: Engine, raw: string)
    requires e.Valid() && Strip(raw) != []
    requires BestOf(sqrt, e, Strip(raw)).score > Threshold
    ensures exists k :: (0 <= k < |e.chunks|
      && FirstMax(Scores(sqrt, Vectorize(Strip(raw)), e.vectors, StrongBonus(Strip(raw))), k)
      && Answer(sqrt, e, raw) == Success(Found(Strip(raw), e.chunks[k], BestOf(sqrt, e, Strip(raw)).score)))
    ensures Answer(sqrt, e, raw).value.confidence > Threshold
    ensures |Answer(sqrt, e, raw).value.context| <= MaxContext + |Ellipsis|
  {
    var k := BestOf(sqrt, e, Strip(raw)).chunk.value;
    assert FirstMax(Scores(sqrt, Vectorize(Strip(raw)), e.vectors, StrongBonus(Strip(raw))), k);
  }

  /** With an empty corpus every non-blank question gets the fallback. */
  lemma AnswerEmptyCorpus(sqrt: SquareRoot, e: Engine, raw: string)
    requires e.Valid() && e.chunks == [] && Strip(raw) != []
    ensures Answer(sqrt, e, raw) == Success(Fallback(Strip(raw)))
  {
  }

  /**
   * A question with no term left after filtering and no strong term shares
   * nothing with any chunk: every score is 0.0 and the fallback is returned.
   */
  lemma AnswerNoVocabulary(sqrt: SquareRoot, e: Engine, raw: string)
    requires e.Valid() && Strip(raw) != []
    requires Vectorize(Strip(raw)) == []
    requires forall i :: 0 <= i < |StrongTerms| ==> !Contains(Lower(Strip(raw)), StrongTerms[i])
    ensures Answer(sqrt, e, raw) == Success(Fallback(Strip(raw)))
  {
    var q := Strip(raw);
    var s := Scores(sqrt, Vectorize(q), e.vectors, StrongBonus(q));
    forall j | 0 <= j < |s| ensures s[j] <= 0.0 {
      CosineDisjoint(sqrt, Vectorize(q), e.vectors[j]);
    }
    SelectCharacterized(s, 0);
  }

  /**
   * A question that mentions a strong term always gets a chunk from a
   * non-empty corpus: the bonus alone clears the threshold, and the chunk is
   * the first one with the greatest raw cosine similarity.
   */
  lemma AnswerStrongTerm(sqrt: SquareRoot, e: Engine, raw: string, i: nat)
    requires IsSqrt(sqrt) && e.Valid() && e.chunks != [] && Strip(raw) != []
    requires i < |StrongTerms| && Contains(Lower(Strip(raw)), StrongTerms[i])
    ensures exists k :: (0 <= k < |e.chunks|
      && FirstMax(Cosines(sqrt, Vectorize(Strip(raw)), e.vectors), k)
      && Answer(sqrt, e, raw).value.chunkId == e.chunks[k].chunkId
      && Answer(sqrt, e, raw).value.context == Clip(Strip(e.chunks[k].text)))
  {
    var q := Strip(raw);
    var c := Cosines(sqrt, Vectorize(q), e.vectors);
    var b := StrongBonus(q);
    StrongBonusPositive(q);
    CosinesNonNegative(sqrt, Vectorize(q), e.vectors);
    BonusKeepsWinner(c, b);
    var k := Select(Shifted(c, b)).chunk.value;
    assert Shifted(c, b)[k] >= b;
    assert b >= BonusStep;
  }

  lemma QuestionIsStripped(q: string)
    requires q == "Comment faire du reconditionnement ?"
    ensures Strip(q) == q
  {
    assert q[0] == 'C' && q[|q| - 1] == '?';
    assert LeadingSpaces(q) == 0;
    assert TrailingSpaces(q) == 0;
  }

  lemma QuestionMentionsReconditioning(q: string)
    requires q == "Comment faire du reconditionnement ?"
    ensures Contains(Lower(q), StrongTerms[1])
  {
    assert q[17..34] == StrongTerms[1];
    assert forall i :: 17 <= i < 34 ==> 'a' <= q[i] <= 'z';
    assert Lower(q)[17..34] == StrongTerms[1];
    assert OccursAt(Lower(q), StrongTerms[1], 17);
  }

  /**
   * One chunk about reconditioning and the question "Comment faire du
   * reconditionnement ?": the strong term alone lifts the score above the
   * threshold, so that chunk is returned.
   */
  lemma ReconditioningScenario(sqrt: SquareRoot, c: Chunk, q: string)
    requires IsSqrt(sqrt)
    requires c == Chunk(1, "Le reconditionnement Linux est un pilier du numérique durable", "https://x", "A")
    requires q == "Comment faire du reconditionnement ?"
    ensures Answer(sqrt, Build([c]), q).Success?
    ensures Answer(sqrt, Build([c]), q).value.chunkId == 1
  {
    QuestionIsStripped(q);
    QuestionMentionsReconditioning(q);
    AnswerStrongTerm(sqrt, Build([c]), q, 1);
  }
}
