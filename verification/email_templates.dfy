/**
 * The pure parts of the e-mail template system: which template comes next
 * in a campaign, how the greeting and the local sentence are chosen, the
 * plain-text to HTML conversion, and the fallback for unknown template
 * names. The template texts themselves are static prose and are not
 * modelled: the body of the chosen template is a parameter.
 */
module EmailTemplates {
  import opened Wrappers
  import opened Records
  import opened Text

  // ---- get_next_template ----

  /** A template to send and the delay, in days, before the one after it. */
  datatype Next = Next(template: string, delayDays: int)

  /**
   * `get_next_template`: a reply books a demo; otherwise the number of
   * e-mails already sent walks the fixed campaign sequence. A missing or
   * empty reply date is `None`.
   */
  function NextTemplate(emailsSent: int, lastReplyDate: Option<Stamp>): (r: Option<Next>)
    ensures lastReplyDate.Some? ==> r == Some(Next("demo_booked", 0))
    ensures r.None? <==> lastReplyDate.None? && (emailsSent < 0 || emailsSent >= 5)
    ensures r.Some? ==> r.value.delayDays in {0, 5, 7, 30}
    ensures r.Some? && r.value.delayDays == 0
            ==> r.value.template == "demo_booked" || (lastReplyDate.None? && emailsSent == 0)
  {
    if lastReplyDate.Some? then Some(Next("demo_booked", 0))
    else if emailsSent == 0 then Some(Next("initial_outreach", 0))
    else if emailsSent == 1 then Some(Next("followup_1", 5))
    else if emailsSent == 2 then Some(Next("followup_2", 7))
    else if 3 <= emailsSent < 5 then Some(Next("re_engagement", 30))
    else None
  }

  /** The campaign sequence for a practice that never replies, e-mail by e-mail. */
  const CampaignSequence: seq<Next> := [
    Next("initial_outreach", 0), Next("followup_1", 5), Next("followup_2", 7),
    Next("re_engagement", 30), Next("re_engagement", 30)]

  /** Without a reply, the n-th e-mail uses the n-th step of the sequence, and there are five steps. */
  lemma CampaignOrder(n: int)
    ensures 0 <= n < |CampaignSequence| ==> NextTemplate(n, None) == Some(CampaignSequence[n])
    ensures !(0 <= n < |CampaignSequence|) ==> NextTemplate(n, None).None?
  {
  }

  // ---- _get_greeting and _get_local_touch ----

  /**
   * `_get_greeting`: a single named doctor is greeted by name at level
   * `high`; several doctors (a comma in the list) get the team greeting; at
   * level `medium` the team of the practice is addressed; otherwise, also
   * for `high` with no doctors listed, the formal greeting is used.
   */
  function Greeting(naam: string, artsen: string, level: string): string {
    if level == "high" && artsen != "" then
      if ',' !in artsen then "Dag Dr. " + Strip(artsen) + ","
      else "Dag team van " + naam + ","
    else if level == "medium" then "Beste team van " + naam + ","
    else Formal
  }

  const Formal := "Geachte heer/mevrouw,"

  /** Which of the four greetings is chosen, told apart by their opening words. */
  lemma GreetingForms(naam: string, artsen: string, level: string)
    ensures var r := Greeting(naam, artsen, level);
            (StartsWith(r, "Dag Dr. ") <==> level == "high" && artsen != "" && ',' !in artsen)
            && (StartsWith(r, "Dag team van ") <==> level == "high" && artsen != "" && ',' in artsen)
            && (StartsWith(r, "Beste team van ") <==> level == "medium")
            && (r == Formal <==> !(level == "high" && artsen != "") && level != "medium")
  {
    var r := Greeting(naam, artsen, level);
    if level == "high" && artsen != "" && ',' !in artsen {
      assert StartsWith(r, "Dag Dr. ") by { assert r[..8] == "Dag Dr. "; }
      assert r[4] == 'D' && r[0] == 'D';
      NotPrefix(r, "Dag team van ", 4);
      NotPrefix(r, "Beste team van ", 0);
      NotPrefix(r, Formal, 0);
    } else if level == "high" && artsen != "" {
      assert StartsWith(r, "Dag team van ") by { assert r[..13] == "Dag team van "; }
      assert r[4] == 't' && r[0] == 'D';
      NotPrefix(r, "Dag Dr. ", 4);
      NotPrefix(r, "Beste team van ", 0);
      NotPrefix(r, Formal, 0);
    } else if level == "medium" {
      assert StartsWith(r, "Beste team van ") by { assert r[..15] == "Beste team van "; }
      assert r[0] == 'B';
      NotPrefix(r, "Dag Dr. ", 0);
      NotPrefix(r, "Dag team van ", 0);
      NotPrefix(r, Formal, 0);
    } else {
      assert r == Formal;
      NotPrefix(r, "Dag Dr. ", 0);
      NotPrefix(r, "Dag team van ", 0);
      NotPrefix(r, "Beste team van ", 0);
    }
  }

  /** A text whose `k`-th character differs from the prefix's does not start with it. */
  lemma NotPrefix(r: string, prefix: string, k: nat)
    requires k < |prefix| && (k < |r| ==> r[k] != prefix[k])
    ensures !StartsWith(r, prefix) && r != prefix
  {
    if |prefix| <= |r| {
      assert r[..|prefix|][k] != prefix[k];
    }
  }

  /** Level `high` with no doctors listed falls back to the formal greeting, not the team one. */
  lemma HighWithoutDoctorsIsFormal(naam: string)
    ensures Greeting(naam, "", "high") == Formal
  {
  }

  /** The city sentences, in the order of the source's table. */
  const LocalLines: seq<(string, string)> := [
    ("Hasselt", "We werken al samen met meerdere praktijken in Hasselt en omgeving."),
    ("Genk", "Praktijken in Genk zien gemiddeld 20% meer efficiëntie na implementatie."),
    ("Tongeren", "U bent de vierde praktijk in Tongeren die we contacteren - er is duidelijk vraag naar automatisering in uw regio!")]

  predicate KnownCity(gemeente: string) {
    exists i | 0 <= i < |LocalLines| :: LocalLines[i].0 == gemeente
  }

  function CityLine(table: seq<(string, string)>, gemeente: string): (r: Option<string>)
    ensures r.Some? <==> exists i | 0 <= i < |table| :: table[i].0 == gemeente
    ensures r.Some? ==> exists i | 0 <= i < |table| :: table[i] == (gemeente, r.value)
  {
    if table == [] then None
    else if table[0].0 == gemeente then Some(table[0].1)
    else CityLine(table[1..], gemeente)
  }

  function MediumLine(gemeente: string): string {
    "We zien veel interesse van praktijken in " + gemeente + "."
  }

  /**
   * `_get_local_touch`: the city sentence only at level `high` for a known
   * city, the generic interest sentence at level `medium`, and nothing
   * otherwise: a `high` level with an unknown city gets no sentence at all.
   */
  function LocalTouch(gemeente: string, level: string): (r: string)
    ensures r != "" <==> (level == "high" && KnownCity(gemeente)) || level == "medium"
    ensures level == "medium" ==> r == MediumLine(gemeente)
    ensures level == "high" && KnownCity(gemeente) ==> exists i | 0 <= i < |LocalLines| :: LocalLines[i] == (gemeente, r)
  {
    var line := CityLine(LocalLines, gemeente);
    if level == "high" && line.Some? then
      assert |LocalLines[0].1| > 0 && |LocalLines[1].1| > 0 && |LocalLines[2].1| > 0;
      line.value
    else if level == "medium" then MediumLine(gemeente)
    else ""
  }

  // ---- _text_to_html ----

  const DivOpen := "<div style='font-family: Arial, sans-serif; line-height: 1.6;'>"
  const DivClose := "</div>"

  /** The body of `_text_to_html` before wrapping: line breaks, then both bold replacements. */
  function HtmlBody(text: string): string {
    var withBreaks := Replace(text, "\n", "<br>");
    var bolded := Replace(withBreaks, "**", "<strong>");
    Replace(bolded, "**", "</strong>")
  }

  /**
   * `_text_to_html`: the result is wrapped in the styled `div`, holds no line
   * break and no `**` pair at all.
   */
  function TextToHtml(text: string): (r: string)
    ensures |DivOpen| + |DivClose| <= |r|
    ensures r[..|DivOpen|] == DivOpen && r[|r| - |DivClose|..] == DivClose
    ensures var body := r[|DivOpen|..|r| - |DivClose|];
            '\n' !in body && NoDouble(body, '*')
  {
    var inner := HtmlBody(text);
    HtmlBodyClean(text);
    var r := DivOpen + inner + DivClose;
    assert r[|DivOpen|..|r| - |DivClose|] == inner;
    r
  }

  lemma HtmlBodyClean(text: string)
    ensures '\n' !in HtmlBody(text) && NoDouble(HtmlBody(text), '*')
  {
    var withBreaks := Replace(text, "\n", "<br>");
    ReplaceCharRemoves(text, '\n', "<br>");
    var bolded := Replace(withBreaks, "**", "<strong>");
    ReplaceKeepsAbsent(withBreaks, "**", "<strong>", '\n');
    ReplacePairNoDouble(withBreaks, '*', "<strong>");
    BoldCloseNeverApplies(text);
  }

  /**
   * The first bold replacement consumes every `**`, so the one meant to
   * close the tag never finds anything: bold text is opened and never closed.
   */
  lemma BoldCloseNeverApplies(text: string)
    ensures HtmlBody(text) == Replace(Replace(text, "\n", "<br>"), "**", "<strong>")
  {
    var bolded := Replace(Replace(text, "\n", "<br>"), "**", "<strong>");
    ReplacePairRemovesAll(Replace(text, "\n", "<br>"), '*', "<strong>");
    ReplaceAbsent(bolded, "**", "</strong>");
  }

  /** Text with no line break and no `**` is only wrapped. */
  lemma PlainTextOnlyWrapped(text: string)
    requires !Contains(text, "\n") && !Contains(text, "**")
    ensures TextToHtml(text) == DivOpen + text + DivClose
  {
    ReplaceAbsent(text, "\n", "<br>");
    ReplaceAbsent(text, "**", "<strong>");
    ReplaceAbsent(text, "**", "</strong>");
    assert HtmlBody(text) == text;
  }

  // ---- get_template ----

  const TemplateNames: seq<string> := [
    "initial_outreach", "followup_1", "followup_2", "demo_booked", "re_engagement", "client_onboarding"]

  /** Templates that come with their own designed HTML. */
  predicate HasDesignedHtml(name: string) {
    name in TemplateNames[..4]
  }

  /** The HTML part: the designed page around the greeting, or the converted body. */
  datatype Html = Designed(greeting: string) | Converted(html: string)

  datatype Email = Email(template: string, greeting: string, localTouch: string, html: Html)

  /** The template actually used: unknown names fall back to the initial outreach. */
  function ResolveTemplate(name: string): (r: string)
    ensures r in TemplateNames
    ensures r == name || (name !in TemplateNames && r == "initial_outreach")
  {
    if name in TemplateNames then name else "initial_outreach"
  }

  /**
   * `get_template` at a personalisation level, given the body text of the
   * template it selects. Missing fields default as in the source.
   */
  function GetTemplate(name: string, p: Practice, level: string, body: string): (r: Email)
    ensures r.template in TemplateNames
    ensures r.html.Converted? <==> r.template == "re_engagement" || r.template == "client_onboarding"
    ensures r.html.Converted? ==> r.html.html == TextToHtml(body)
    ensures r.html.Designed? ==> r.html.greeting == r.greeting
  {
    var naam := p.naam.GetOr("Geachte praktijk");
    var gem := p.gem.GetOr("uw regio");
    var artsen := p.artsenNamen.GetOr("");
    var greeting := Greeting(naam, artsen, level);
    var template := ResolveTemplate(name);
    var html := if HasDesignedHtml(template) then Designed(greeting) else Converted(TextToHtml(body));
    Email(template, greeting, LocalTouch(gem, level), html)
  }

  /** An unknown name yields exactly the initial outreach e-mail. */
  lemma UnknownNameFallsBack(name: string, p: Practice, level: string, body: string)
    requires name !in TemplateNames
    ensures GetTemplate(name, p, level, body) == GetTemplate("initial_outreach", p, level, body)
  {
  }

  /** A missing name, city or doctor list behaves as the source's default value. */
  lemma MissingFieldsDefault(name: string, p: Practice, level: string, body: string)
    requires p.naam.None? && p.gem.None? && p.artsenNamen.None?
    ensures GetTemplate(name, p, level, body)
            == GetTemplate(name, p.(naam := Some("Geachte praktijk"), gem := Some("uw regio"), artsenNamen := Some("")),
                           level, body)
  {
  }
}
