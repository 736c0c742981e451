/**
 * Reading replies: the sender address taken from a `From` header, the
 * keyword sentiment of a reply body, and the action the automatic handler
 * chooses from it. The mailbox API is left out.
 */
module ResponseTracker {
  import opened Wrappers
  import opened Text

  // ---- sender extraction, `re.search(r'<(.+?)>', from_header)` ----

  /**
   * The end of the shortest match of `.+?>` after the `<` at `i`, scanning
   * from `j`: the first `>` that has at least one character between it and
   * the `<`, as long as no line break comes first (`.` does not match one).
   */
  function CloseAfter(s: string, i: nat, j: nat): (r: Option<nat>)
    requires i < j && forall k | i < k < j && k < |s| :: s[k] != '\n'
    ensures r.Some? ==> i + 2 <= r.value < |s| && s[r.value] == '>'
                        && forall k | i < k < r.value :: s[k] != '\n'
    decreases |s| - j
  {
    if j >= |s| || s[j] == '\n' then None
    else if s[j] == '>' && j >= i + 2 then Some(j)
    else CloseAfter(s, i, j + 1)
  }

  /** The leftmost match at or after position `i`, as the positions of its `<` and `>`. */
  function SearchFrom(s: string, i: nat): (r: Option<(nat, nat)>)
    ensures r.Some? ==> i <= r.value.0 && r.value.0 + 2 <= r.value.1 < |s|
                        && s[r.value.0] == '<' && s[r.value.1] == '>'
    decreases |s| - i
  {
    if i >= |s| then None
    else if s[i] == '<' && CloseAfter(s, i, i + 1).Some? then Some((i, CloseAfter(s, i, i + 1).value))
    else SearchFrom(s, i + 1)
  }

  /** `email_match.group(1) if email_match else from_header`. */
  function SenderEmail(header: string): (r: string)
    ensures '<' !in header ==> r == header
    ensures r != header ==> |r| > 0 && |r| + 2 <= |header|
  {
    match SearchFrom(header, 0)
    case Some((i, j)) => header[i + 1..j]
    case None => header
  }

  /** A match needs a `<`. */
  lemma {:induction false} NoOpenNoMatch(s: string, i: nat)
    requires '<' !in s
    ensures SearchFrom(s, i).None?
    decreases |s| - i
  {
    if i < |s| {
      NoOpenNoMatch(s, i + 1);
    }
  }

  lemma {:induction false} CloseAfterFirst(s: string, i: nat, j: nat, e: nat)
    requires i < j <= e < |s| && i + 2 <= e && s[e] == '>'
    requires forall k | i < k < j :: s[k] != '\n'
    requires forall k | j <= k < e :: s[k] != '\n' && (s[k] == '>' ==> k < i + 2)
    ensures CloseAfter(s, i, j) == Some(e)
    decreases e - j
  {
    if j < e {
      CloseAfterFirst(s, i, j + 1, e);
    }
  }

  lemma {:induction false} SearchSkips(s: string, i: nat, o: nat)
    requires i <= o < |s| && s[o] == '<' && CloseAfter(s, o, o + 1).Some?
    requires forall k | i <= k < o :: s[k] != '<'
    ensures SearchFrom(s, i) == Some((o, CloseAfter(s, o, o + 1).value))
    decreases o - i
  {
    if i < o {
      SearchSkips(s, i + 1, o);
    }
  }

  /**
   * `Name <address>` gives the address, as long as the name holds no `<`
   * and the address is one line, not empty, and holds no `>`.
   */
  lemma SenderOfNamedAddress(name: string, address: string)
    requires '<' !in name
    requires |address| > 0 && '>' !in address && '\n' !in address
    ensures SenderEmail(name + "<" + address + ">") == address
  {
    var s := name + "<" + address + ">";
    var o, e := |name|, |name| + 1 + |address|;
    assert s[o] == '<' && s[e] == '>';
    assert forall k | o + 1 <= k < e :: s[k] == address[k - o - 1];
    CloseAfterFirst(s, o, o + 1, e);
    assert forall k | 0 <= k < o :: s[k] == name[k];
    SearchSkips(s, 0, o);
    assert s[o + 1..e] == address;
  }

  /** A bare address is its own sender. */
  lemma SenderOfBareAddress(address: string)
    requires '<' !in address
    ensures SenderEmail(address) == address
  {
  }

  /** `<>` alone does not match, but in `<>x>` the first `>` is content and the match is `>x`. */
  lemma LazyMatchNeedsContent(s: string)
    requires s == "<>x>"
    ensures SenderEmail(s) == ">x"
  {
    CloseAfterFirst(s, 0, 1, 3);
    SearchSkips(s, 0, 0);
    assert s[1..3] == ">x";
  }

  // ---- ResponseMatcher.analyze_sentiment ----

  datatype Sentiment = Positive | Negative | Neutral

  function PositiveKeywords(): seq<string> {
    ["interesse", "demo", "afspraak", "bellen", "graag", "ja", "zeker"]
  }

  function NegativeKeywords(): seq<string> {
    ["geen interesse", "uitschrijven", "stop", "nee", "niet bellen"]
  }

  /** How many of `keywords` occur in `text`. */
  function Hits(keywords: seq<string>, text: string): (n: nat)
    ensures n > 0 <==> exists k | 0 <= k < |keywords| :: Contains(text, keywords[k])
    decreases |keywords|
  {
    if keywords == [] then 0
    else (if Contains(text, keywords[0]) then 1 else 0) + Hits(keywords[1..], text)
  }

  /**
   * `analyze_sentiment`: on the lower-cased body, any negative keyword
   * makes the reply negative, whatever positive keywords it also holds;
   * otherwise any positive keyword makes it positive.
   */
  function AnalyzeSentiment(body: string): (r: Sentiment)
    ensures r == Negative <==> exists k | 0 <= k < |NegativeKeywords()| :: Contains(Lower(body), NegativeKeywords()[k])
    ensures r == Positive <==> (forall k | 0 <= k < |NegativeKeywords()| :: !Contains(Lower(body), NegativeKeywords()[k]))
                               && exists k | 0 <= k < |PositiveKeywords()| :: Contains(Lower(body), PositiveKeywords()[k])
  {
    var b := Lower(body);
    if Hits(NegativeKeywords(), b) > 0 then Negative
    else if Hits(PositiveKeywords(), b) > 0 then Positive
    else Neutral
  }

  /**
   * "Geen interesse" is negative although it holds the positive keyword
   * `interesse`.
   */
  lemma GeenInteresseIsNegative(body: string)
    requires body == "Geen interesse"
    ensures AnalyzeSentiment(body) == Negative
    ensures Contains(Lower(body), PositiveKeywords()[0])
  {
    var b := Lower(body);
    assert b == "geen interesse";
    assert OccursAt(b, NegativeKeywords()[0], 0);
    assert OccursAt(b, "interesse", 5);
  }

  /** Keywords match inside words: "meneer" holds "nee", so a polite positive reply reads as negative. */
  lemma MeneerIsNegative(body: string)
    requires body == "meneer, graag"
    ensures AnalyzeSentiment(body) == Negative
  {
    var b := Lower(body);
    assert b == body;
    assert OccursAt(b, NegativeKeywords()[3], 2);
  }

  // ---- AutomatedResponseHandler.handle_response ----

  datatype Action = OptOut | MarkLead | NoAction

  datatype Handled = Handled(sentiment: Sentiment, action: Action)

  /** `handle_response`: negative opts the practice out, positive marks a lead, neutral does nothing. */
  function HandleResponse(body: string): (h: Handled)
    ensures h.sentiment == AnalyzeSentiment(body)
    ensures h.action == OptOut <==> h.sentiment == Negative
    ensures h.action == MarkLead <==> h.sentiment == Positive
    ensures h.action == NoAction <==> h.sentiment == Neutral
  {
    var s := AnalyzeSentiment(body);
    Handled(s, match s
               case Negative => OptOut
               case Positive => MarkLead
               case Neutral => NoAction)
  }

  /** A reply that asks to unsubscribe is opted out even when it also asks for a demo. */
  lemma UnsubscribeWins(body: string)
    requires Contains(Lower(body), "uitschrijven")
    ensures HandleResponse(body).action == OptOut
  {
    assert NegativeKeywords()[1] == "uitschrijven";
  }
}
