/**
 * The parts of the AI e-mail generator that do not call the language
 * model: the personalisation score of a generated e-mail and the batch
 * loop. The generator itself is a parameter that either returns an e-mail
 * or raises (`None`).
 */
module AiEmail {
  import opened Wrappers
  import opened Text
  import opened Records
  import Folds

  predicate StartsUpper(w: string) {
    |w| > 0 && IsUpper(w[0])
  }

  function Bonus(b: bool): int {
    if b then 10 else 0
  }

  /** The five checks of the score, on the lower-cased body. */
  predicate MentionsDoctor(b: string) {
    Contains(b, "dr.") || Contains(b, "dokter")
  }

  predicate ProperNames(b: string) {
    Folds.CountOf(Words(b), StartsUpper) > 3
  }

  predicate AddressesReader(b: string) {
    Contains(b, "u") || Contains(b, "uw") || Contains(b, "jullie")
  }

  predicate Short(b: string) {
    |Words(b)| < 200
  }

  predicate AsksQuestion(b: string) {
    Contains(b, "?")
  }

  /**
   * `_calculate_personalization_score`: 50 plus 10 for each check the
   * lower-cased body passes, capped at 100. A missing body is "".
   */
  function PersonalizationScore(body: Option<string>): (score: int)
    ensures 50 <= score <= 100
  {
    var b := Lower(body.GetOr(""));
    var raw := 50 + Bonus(MentionsDoctor(b)) + Bonus(ProperNames(b)) + Bonus(AddressesReader(b))
               + Bonus(Short(b)) + Bonus(AsksQuestion(b));
    if raw < 100 then raw else 100
  }

  /** No word of a lower-cased text starts with a capital, so the proper-name check never passes. */
  lemma NoProperNamesAfterLower(s: string)
    ensures !ProperNames(Lower(s))
  {
    var b := Lower(s);
    var ws := Words(b);
    assert forall c | c in b :: !IsUpper(c);
    NoneCounted(ws, StartsUpper);
  }

  lemma {:induction false} NoneCounted<T>(s: seq<T>, p: T -> bool)
    requires forall i | 0 <= i < |s| :: !p(s[i])
    ensures Folds.CountOf(s, p) == 0
    decreases |s|
  {
    if s != [] {
      NoneCounted(s[..|s| - 1], p);
    }
  }

  /** "uw" and "jullie" both contain "u": the check is whether the letter occurs at all. */
  lemma AddressesReaderIsLetterU(b: string)
    ensures AddressesReader(b) <==> 'u' in b
  {
    ContainsChar(b, 'u');
    if Contains(b, "uw") {
      var i :| 0 <= i <= |b| - 2 && OccursAt(b, "uw", i);
      OccursAtChar(b, "uw", i, 0);
    }
    if Contains(b, "jullie") {
      var i :| 0 <= i <= |b| - 6 && OccursAt(b, "jullie", i);
      OccursAtChar(b, "jullie", i, 1);
    }
  }

  lemma OccursAtChar(s: string, pattern: string, i: int, k: nat)
    requires OccursAt(s, pattern, i) && k < |pattern|
    ensures s[i + k] == pattern[k] && pattern[k] in s
  {
    assert s[i..i + |pattern|][k] == s[i + k];
  }

  /**
   * What the score comes to: 50 plus 10 for a doctor mention, for any `u`
   * or `U`, for fewer than 200 words and for a question mark. The cap at
   * 100 never applies and the score never exceeds 90.
   */
  lemma ScoreMeaning(body: string)
    ensures var b := Lower(body);
            PersonalizationScore(Some(body))
            == 50 + Bonus(MentionsDoctor(b)) + Bonus('u' in body || 'U' in body)
               + Bonus(|Words(b)| < 200) + Bonus('?' in body)
    ensures PersonalizationScore(Some(body)) <= 90
  {
    var b := Lower(body);
    NoProperNamesAfterLower(body);
    AddressesReaderIsLetterU(b);
    ContainsChar(b, '?');
    assert 'u' in b <==> 'u' in body || 'U' in body by {
      if 'u' in b {
        var i :| 0 <= i < |b| && b[i] == 'u';
        assert body[i] == 'u' || body[i] == 'U';
      }
      if 'u' in body {
        var i :| 0 <= i < |body| && body[i] == 'u';
        assert b[i] == 'u';
      }
      if 'U' in body {
        var i :| 0 <= i < |body| && body[i] == 'U';
        assert b[i] == 'u';
      }
    }
    assert '?' in b <==> '?' in body by {
      if '?' in b {
        var i :| 0 <= i < |b| && b[i] == '?';
        assert body[i] == '?';
      }
      if '?' in body {
        var i :| 0 <= i < |body| && body[i] == '?';
        assert b[i] == '?';
      }
    }
  }

  // ---- BatchAIGenerator.generate_batch ----

  /** `batch_size`, the API's limit per call. */
  const BatchSize := 10

  datatype BatchItem<E> = Generated(practiceId: int, email: E) | GenerationFailed(practiceId: int)

  /**
   * `practice['nr']` raised for the practice at `index`, in the `try` and
   * again in its `except` handler, so the whole batch raises.
   */
  datatype BatchError = MissingNr(index: nat)

  function ItemFor<E>(p: Practice, generate: Practice -> Option<E>): (item: BatchItem<E>)
    requires p.nr.Some?
    ensures item.practiceId == p.nr.value
    ensures item.Generated? <==> generate(p).Some?
  {
    match generate(p)
    case Some(e) => Generated(p.nr.value, e)
    case None => GenerationFailed(p.nr.value)
  }

  /**
   * `generate_batch`: the practices are taken in slices of ten and each is
   * handed to the generator in order; each gives one result, unless a
   * practice without `nr` ends the whole call.
   */
  method GenerateBatch<E>(ps: seq<Practice>, generate: Practice -> Option<E>)
    returns (r: Result<seq<BatchItem<E>>, BatchError>)
    ensures r.Failure? <==> exists i | 0 <= i < |ps| :: ps[i].nr.None?
    ensures r.Failure? ==> r.error.index < |ps| && ps[r.error.index].nr.None?
                           && forall j | 0 <= j < r.error.index :: ps[j].nr.Some?
    ensures r.Success? ==> |r.value| == |ps|
                           && forall k | 0 <= k < |ps| :: ps[k].nr.Some? && r.value[k] == ItemFor(ps[k], generate)
  {
    var results: seq<BatchItem<E>> := [];
    var start := 0;
    while start < |ps|
      invariant 0 <= start <= |ps| && |results| == start
      invariant forall k | 0 <= k < start :: ps[k].nr.Some? && results[k] == ItemFor(ps[k], generate)
    {
      var stop := if start + BatchSize < |ps| then start + BatchSize else |ps|;
      var j := start;
      while j < stop
        invariant start <= j <= stop && |results| == j
        invariant forall k | 0 <= k < j :: ps[k].nr.Some? && results[k] == ItemFor(ps[k], generate)
      {
        if ps[j].nr.None? {
          return Failure(MissingNr(j));
        }
        results := results + [ItemFor(ps[j], generate)];
        j := j + 1;
      }
      start := stop;
    }
    return Success(results);
  }
}
