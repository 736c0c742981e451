/**
 * The WhatsApp service: the `whatsapp:` address format, its number
 * validation, the approved message templates with their numbered
 * `{{i}}` placeholders, and the bulk send. The provider is a parameter:
 * `deliver(address, text)` says whether a template send succeeded and
 * gives the provider's answer to each send of the bulk loop.
 */
module WhatsApp {
  import opened Wrappers
  import opened Text
  import Sms
  import Messaging
  import Folds

  // ---- _format_whatsapp_number ----

  const Prefix := "whatsapp:"

  /**
   * `_format_whatsapp_number`: an address that already has the prefix is
   * returned as it is, without cleaning; otherwise the number gets `+32`
   * as for an SMS send, is cleaned, and gets the prefix.
   */
  function FormatNumber(phone: string): (r: string)
    ensures StartsWith(r, Prefix)
    ensures StartsWith(phone, Prefix) ==> r == phone
    ensures !StartsWith(phone, Prefix) ==> Sms.Clean(r[|Prefix|..])
  {
    if StartsWith(phone, Prefix) then phone
    else
      assert (Prefix + Sms.SendNumber(phone))[..|Prefix|] == Prefix;
      assert (Prefix + Sms.SendNumber(phone))[|Prefix|..] == Sms.SendNumber(phone);
      Prefix + Sms.SendNumber(phone)
  }

  /** Formatting a formatted address returns it unchanged. */
  lemma FormatIdempotent(phone: string)
    ensures FormatNumber(FormatNumber(phone)) == FormatNumber(phone)
  {
  }

  /** A cleaned `+` number is only prefixed. */
  lemma FormatCleanPlus(x: string)
    requires x != "" && x[0] == '+' && Sms.Clean(x)
    ensures FormatNumber(x) == Prefix + x
  {
    assert !StartsWith(x, Prefix) by {
      if |Prefix| <= |x| { assert x[..|Prefix|][0] == x[0] != Prefix[0]; }
    }
    DialCharsOfClean(x);
  }

  // ---- validate_phone_number ----

  /**
   * `validate_phone_number` of the WhatsApp service: a cleaned `+32`
   * number must have 12 characters; a local `0` number is valid only when
   * its formatted address has 22 characters; every other failure is
   * `invalid_format`.
   */
  function ValidatePhone(phone: string): (v: Sms.Validation)
    ensures v == Sms.EmptyPhone <==> phone == ""
    ensures !v.InvalidLength?
    ensures v.Valid? ==> StartsWith(v.formatted, Prefix) && Sms.Clean(v.formatted[|Prefix|..])
  {
    if phone == "" then Sms.EmptyPhone
    else
      var cleaned := DialChars(phone);
      if StartsWith(cleaned, "+32") then
        if |cleaned| == 12 then Sms.Valid(FormatNumber(cleaned)) else Sms.InvalidFormat
      else if StartsWith(cleaned, "0") then
        var formatted := FormatNumber("+32" + cleaned[1..]);
        if |formatted| == 22 then Sms.Valid(formatted) else Sms.InvalidFormat
      else Sms.InvalidFormat
  }

  /** A `+32` number is valid exactly when it has 12 characters, and it is then only prefixed. */
  lemma PlusBranch(phone: string)
    requires phone != "" && StartsWith(DialChars(phone), "+32")
    ensures ValidatePhone(phone).Valid? <==> |DialChars(phone)| == 12
    ensures ValidatePhone(phone).Valid? ==> ValidatePhone(phone).formatted == Prefix + DialChars(phone)
  {
    var c := DialChars(phone);
    assert c[0] == "+32"[0];
    FormatCleanPlus(c);
  }

  /**
   * A local `0` number is valid exactly when it has 11 cleaned
   * characters, so an ordinary 10-digit Belgian number (which the SMS
   * service accepts) is rejected.
   */
  lemma ZeroBranch(phone: string)
    requires phone != "" && !StartsWith(DialChars(phone), "+32") && StartsWith(DialChars(phone), "0")
    ensures ValidatePhone(phone).Valid? <==> |DialChars(phone)| == 11
    ensures ValidatePhone(phone).Valid? ==> ValidatePhone(phone).formatted == Prefix + "+32" + DialChars(phone)[1..]
    ensures |DialChars(phone)| == 10 ==> ValidatePhone(phone) == Sms.InvalidFormat && Sms.ValidatePhone(phone).Valid?
  {
    var c := DialChars(phone);
    var x := "+32" + c[1..];
    assert Sms.Clean(x) by {
      assert Sms.Clean("+32") by { assert "+32"[1] == '3' && "+32"[2] == '2'; }
      forall i | 0 <= i < |x| ensures IsDialChar(x[i]) {
        if i >= 3 { assert x[i] == c[i - 2]; }
      }
    }
    FormatCleanPlus(x);
    assert Prefix + x == Prefix + "+32" + c[1..];
  }

  /** Any other cleaned number is `invalid_format`. */
  lemma OtherBranch(phone: string)
    requires phone != "" && !StartsWith(DialChars(phone), "+32") && !StartsWith(DialChars(phone), "0")
    ensures ValidatePhone(phone) == Sms.InvalidFormat
  {
  }

  // ---- message templates ----

  /** A template body: literal text and numbered placeholders `{{i}}`. */
  datatype Piece = Literal(text: string) | Slot(index: nat)

  function SlotText(i: nat): string {
    "{{" + NatToString(i) + "}}"
  }

  function PieceText(p: Piece): string {
    match p
    case Literal(t) => t
    case Slot(i) => SlotText(i)
  }

  /** The template text the pieces spell. */
  function Render(c: seq<Piece>): string
    decreases |c|
  {
    if c == [] then "" else PieceText(c[0]) + Render(c[1..])
  }

  datatype Template = Template(
    key: string,
    name: string,
    content: seq<Piece>,
    category: string,
    variables: seq<string>,
    status: string,
    language: string,
    supportsMedia: bool)

  /**
   * The template dictionary `WHATSAPP_TEMPLATES`, in its order, around the
   * seven message texts. The metadata is spelled out here; the texts are
   * arguments so that facts about the metadata hold whatever the texts say.
   */
  function Catalogue(introduction: seq<Piece>, followUp: seq<Piece>, appointment: seq<Piece>,
                     documentShare: seq<Piece>, thankYou: seq<Piece>, specialOffer: seq<Piece>,
                     meetingReminder: seq<Piece>): seq<Template> {
    [Template("introduction", "Introductie", introduction,
              "marketing", ["naam", "sender_name"], "approved", "nl", false),
     Template("follow_up", "Follow-up", followUp,
              "marketing", ["naam", "sender_name"], "approved", "nl", false),
     Template("appointment_confirmation", "Afspraak Bevestiging", appointment,
              "transactional", ["naam", "datum", "tijd", "sender_name"], "approved", "nl", false),
     Template("document_share", "Document Delen", documentShare,
              "utility", ["naam", "sender_name"], "approved", "nl", true),
     Template("thank_you", "Bedankt", thankYou,
              "transactional", ["naam", "sender_name"], "approved", "nl", false),
     Template("special_offer", "Speciaal Aanbod", specialOffer,
              "marketing", ["naam", "gemeente", "sender_name"], "approved", "nl", false),
     Template("meeting_reminder", "Meeting Reminder", meetingReminder,
              "transactional", ["tijd", "sender_name"], "approved", "nl", false)]
  }

  /** `WHATSAPP_TEMPLATES` with its texts. */
  function Templates(): seq<Template> {
    Catalogue(IntroductionText(), FollowUpText(), AppointmentText(), DocumentShareText(),
              ThankYouText(), SpecialOfferText(), MeetingReminderText())
  }

  const TemplateKeys := ["introduction", "follow_up", "appointment_confirmation", "document_share",
                         "thank_you", "special_offer", "meeting_reminder"]

  function IntroductionText(): seq<Piece> {
    [Literal("Hallo "), Slot(1),
     Literal(", wij zijn gespecialiseerd in het " + "ondersteunen van " + "huisartsenpraktijken. Interesse in " + "een vrijblijvend gesprek? Groet, "),
     Slot(2)]
  }

  function FollowUpText(): seq<Piece> {
    [Literal("Beste "), Slot(1),
     Literal(", ik stuurde je vorige week " + "informatie over onze diensten. Heb " + "je even tijd voor een korte call " + "deze week? Groet, "),
     Slot(2)]
  }

  function AppointmentText(): seq<Piece> {
    [Literal("Hallo "), Slot(1), Literal(", hierbij bevestig ik onze afspraak op "), Slot(2),
     Literal(" om "), Slot(3), Literal(". Tot dan! Groet, "), Slot(4)]
  }

  function DocumentShareText(): seq<Piece> {
    [Literal("Hallo "), Slot(1),
     Literal(", zoals beloofd: hier is de " + "informatie die je vroeg. Heb je " + "vragen? Bel me gerust! Groet, "),
     Slot(2)]
  }

  function ThankYouText(): seq<Piece> {
    [Literal("Bedankt voor je tijd vandaag, "), Slot(1),
     Literal("! Zoals beloofd stuur ik je alle " + "info door. Heb je vragen? Laat het " + "me weten! Groet, "),
     Slot(2)]
  }

  /** The emoji bytes appear in the source as their Latin-1 reading; they are kept as such. */
  function SpecialOfferText(): seq<Piece> {
    [Literal("Hallo "), Slot(1),
     Literal("! \U{F0}\U{178}\U{17D}\U{2030} We " + "hebben een exclusief aanbod voor " + "praktijken in "), Slot(2),
     Literal(". Interesse? Neem contact met ons " + "op! Groet, "), Slot(3)]
  }

  function MeetingReminderText(): seq<Piece> {
    [Literal("\U{E2}\U{B0} Reminder: onze afspraak " + "is morgen om "), Slot(1),
     Literal(". Zie ik je dan! Groet, "), Slot(2)]
  }

  /** `WHATSAPP_TEMPLATES.get(key)`. */
  function Lookup(ts: seq<Template>, key: string): (r: Option<Template>)
    ensures r.Some? ==> r.value in ts && r.value.key == key
    ensures r.None? <==> forall k | 0 <= k < |ts| :: ts[k].key != key
    decreases |ts|
  {
    if ts == [] then None
    else if ts[0].key == key then Some(ts[0])
    else Lookup(ts[1..], key)
  }

  /** `get_approved_templates`: the templates whose status is `approved`, in order. */
  function Approved(ts: seq<Template>): (r: seq<Template>)
    ensures |r| <= |ts|
    ensures forall k | 0 <= k < |r| :: r[k] in ts && r[k].status == "approved"
    ensures forall k | 0 <= k < |ts| :: ts[k].status == "approved" ==> ts[k] in r
    decreases |ts|
  {
    if ts == [] then []
    else (if ts[0].status == "approved" then [ts[0]] else []) + Approved(ts[1..])
  }

  lemma {:induction false} ApprovedAll(ts: seq<Template>)
    requires forall k | 0 <= k < |ts| :: ts[k].status == "approved"
    ensures Approved(ts) == ts
    decreases |ts|
  {
    if ts != [] {
      ApprovedAll(ts[1..]);
    }
  }

  /** Every template of the dictionary is approved, so the approved list is the whole dictionary. */
  lemma AllTemplatesApproved(c1: seq<Piece>, c2: seq<Piece>, c3: seq<Piece>, c4: seq<Piece>,
                             c5: seq<Piece>, c6: seq<Piece>, c7: seq<Piece>)
    ensures Approved(Catalogue(c1, c2, c3, c4, c5, c6, c7)) == Catalogue(c1, c2, c3, c4, c5, c6, c7)
  {
    var ts := Catalogue(c1, c2, c3, c4, c5, c6, c7);
    assert forall k | 0 <= k < |ts| :: ts[k].status == "approved";
    ApprovedAll(ts);
  }

  /** A name is found in the dictionary exactly when it is one of the seven keys. */
  lemma CatalogueKeys(c1: seq<Piece>, c2: seq<Piece>, c3: seq<Piece>, c4: seq<Piece>,
                      c5: seq<Piece>, c6: seq<Piece>, c7: seq<Piece>, name: string)
    ensures Lookup(Catalogue(c1, c2, c3, c4, c5, c6, c7), name).Some? <==> name in TemplateKeys
  {
    var ts := Catalogue(c1, c2, c3, c4, c5, c6, c7);
    assert forall k | 0 <= k < |ts| :: ts[k].key == TemplateKeys[k];
  }

  // ---- placeholder substitution in send_template_message ----

  /** Replaces `{{i}}` by `params[i - 1]`, for `i` from `from` up to `|params|`, in that order. */
  function FillFrom(text: string, params: seq<string>, from: nat): string
    requires from >= 1
    decreases |params| + 1 - from
  {
    if from > |params| then text
    else FillFrom(Replace(text, SlotText(from), params[from - 1]), params, from + 1)
  }

  /** The loop over `enumerate(template_params, 1)`. */
  function Fill(text: string, params: seq<string>): string {
    FillFrom(text, params, 1)
  }

  /** The reference: every slot numbered `from..|params|` becomes its parameter. */
  function FillPiecesFrom(c: seq<Piece>, params: seq<string>, from: nat): (r: seq<Piece>)
    ensures |r| == |c|
  {
    seq(|c|, j requires 0 <= j < |c| =>
      if c[j].Slot? && from <= c[j].index <= |params| && c[j].index >= 1
      then Literal(params[c[j].index - 1]) else c[j])
  }

  /**
   * Slot `i` for `1 <= i <= |params|` becomes the literal `params[i - 1]`;
   * every other piece, including a slot numbered higher, is kept.
   */
  function FillPieces(c: seq<Piece>, params: seq<string>): (r: seq<Piece>)
    ensures |r| == |c|
    ensures forall j | 0 <= j < |c| && c[j].Slot? && 1 <= c[j].index <= |params| ::
              r[j] == Literal(params[c[j].index - 1])
    ensures forall j | 0 <= j < |c| && !(c[j].Slot? && 1 <= c[j].index <= |params|) :: r[j] == c[j]
  {
    FillPiecesFrom(c, params, 1)
  }

  /** No `{` in any literal piece. */
  predicate LiteralsBraceFree(c: seq<Piece>) {
    forall j | 0 <= j < |c| :: c[j].Literal? ==> '{' !in c[j].text
  }

  /** Text without `{` in front passes through a placeholder replacement unchanged. */
  lemma {:induction false} ReplaceBraceFreeFront(a: string, b: string, p: string, r: string)
    requires |p| > 0 && p[0] == '{' && '{' !in a
    ensures Replace(a + b, p, r) == a + Replace(b, p, r)
    decreases |a|
  {
    if a != [] {
      assert (a + b)[1..] == a[1..] + b;
      assert (a + b)[0] == a[0];
      ReplaceBraceFreeFront(a[1..], b, p, r);
    } else {
      assert a + b == b;
    }
  }

  /** Where the pattern does not start, the first character is kept. */
  lemma ReplaceNoMatchHere(x: string, p: string, r: string)
    requires |p| > 0 && |x| > 0
    requires |x| >= |p| ==> x[..|p|] != p
    ensures Replace(x, p, r) == [x[0]] + Replace(x[1..], p, r)
  {
    if |x| < |p| {
      assert Replace(x[1..], p, r) == x[1..];
      assert x == [x[0]] + x[1..];
    }
  }

  /** Where the pattern does not start, the first character is kept (stated on a split string). */
  lemma ReplaceKeepsHead(c: char, y: string, p: string, r: string)
    requires |p| > 0
    requires |[c] + y| >= |p| ==> ([c] + y)[..|p|] != p
    ensures Replace([c] + y, p, r) == [c] + Replace(y, p, r)
  {
    ReplaceNoMatchHere([c] + y, p, r);
    assert ([c] + y)[1..] == y;
  }

  /** Two different placeholders never start at the same place. */
  lemma SlotsDiffer(k: nat, i: nat, b: string)
    requires k != i
    requires |SlotText(k) + b| >= |SlotText(i)|
    ensures (SlotText(k) + b)[..|SlotText(i)|] != SlotText(i)
  {
    var dk, di := NatToString(k), NatToString(i);
    var x := SlotText(k) + b;
    var p := SlotText(i);
    assert x == "{{" + dk + "}}" + b;
    if |di| < |dk| {
      assert x[..|p|][2 + |di|] == dk[|di|];
      assert IsDigit(dk[|di|]);
      assert p[2 + |di|] == '}';
    } else if |di| > |dk| {
      assert x[..|p|][2 + |dk|] == '}';
      assert IsDigit(di[|dk|]);
      assert p[2 + |dk|] == di[|dk|];
    } else if x[..|p|] == p {
      assert x[..|p|][2..2 + |dk|] == x[2..2 + |dk|] == dk;
      assert p[2..2 + |di|] == di;
      ParseNatToString(k);
      ParseNatToString(i);
    }
  }

  /** The placeholder being replaced, in front. */
  lemma ReplaceSlotSelf(i: nat, b: string, r: string)
    ensures Replace(SlotText(i) + b, SlotText(i), r) == r + Replace(b, SlotText(i), r)
  {
    var p := SlotText(i);
    assert (p + b)[..|p|] == p;
    assert (p + b)[|p|..] == b;
  }

  /** The digits and closing braces of a placeholder hold no `{`. */
  lemma SlotTailBraceFree(k: nat)
    ensures '{' !in NatToString(k) + "}}"
  {
    var dk := NatToString(k);
    assert forall j | 0 <= j < |dk| :: IsDigit(dk[j]);
  }

  /** Past the first `{` of another placeholder: a `{` and then no `{` up to `b`. */
  lemma ReplaceSlotOtherTail(k: nat, i: nat, b: string, r: string)
    ensures Replace(['{'] + ((NatToString(k) + "}}") + b), SlotText(i), r)
            == ['{'] + ((NatToString(k) + "}}") + Replace(b, SlotText(i), r))
  {
    var p, t := SlotText(i), NatToString(k) + "}}";
    var y := ['{'] + (t + b);
    assert y[1] == t[0] == NatToString(k)[0];
    assert IsDigit(NatToString(k)[0]);
    assert p[1] == '{';
    if |y| >= |p| {
      assert y[..|p|][1] == y[1];
    }
    ReplaceNoMatchHere(y, p, r);
    assert y[1..] == t + b;
    SlotTailBraceFree(k);
    ReplaceBraceFreeFront(t, b, p, r);
  }

  /** Another placeholder in front stays as it is. */
  lemma ReplaceSlotOther(k: nat, i: nat, b: string, r: string)
    requires k != i
    ensures Replace(SlotText(k) + b, SlotText(i), r) == SlotText(k) + Replace(b, SlotText(i), r)
  {
    var p, t := SlotText(i), NatToString(k) + "}}";
    var y := ['{'] + (t + b);
    var rb := Replace(b, p, r);
    assert SlotText(k) + b == ['{'] + y;
    if |SlotText(k) + b| >= |p| {
      SlotsDiffer(k, i, b);
    }
    ReplaceKeepsHead('{', y, p, r);
    ReplaceSlotOtherTail(k, i, b, r);
    assert Replace(y, p, r) == ['{'] + (t + rb);
    var head := ['{'] + (['{'] + t);
    assert SlotText(k) == head;
    assert head + rb == ['{'] + (['{'] + (t + rb));
  }

  /** Replacing placeholder `i` in rendered pieces fills the slots numbered `i`. */
  lemma {:induction false} ReplaceRender(c: seq<Piece>, i: nat, r: string)
    requires LiteralsBraceFree(c)
    ensures Replace(Render(c), SlotText(i), r) == Render(FillOne(c, i, r))
    decreases |c|
  {
    if c != [] {
      ReplaceRender(c[1..], i, r);
      assert FillOne(c, i, r) == FillOne(c[..1], i, r) + FillOne(c[1..], i, r);
      match c[0]
      case Literal(t) =>
        assert '{' !in t;
        ReplaceBraceFreeFront(t, Render(c[1..]), SlotText(i), r);
      case Slot(k) =>
        if k == i {
          ReplaceSlotSelf(i, Render(c[1..]), r);
        } else {
          ReplaceSlotOther(k, i, Render(c[1..]), r);
        }
    }
  }

  /** The pieces with every slot numbered `i` replaced by the literal `r`. */
  function FillOne(c: seq<Piece>, i: nat, r: string): (f: seq<Piece>)
    ensures |f| == |c|
  {
    seq(|c|, j requires 0 <= j < |c| => if c[j] == Slot(i) then Literal(r) else c[j])
  }

  /** Filling slot `from` first and then the later ones is filling them all. */
  lemma FillOneThenRest(c: seq<Piece>, params: seq<string>, from: nat)
    requires 1 <= from <= |params|
    ensures FillPiecesFrom(FillOne(c, from, params[from - 1]), params, from + 1) == FillPiecesFrom(c, params, from)
  {
  }

  /** Filling a slot with a brace-free parameter keeps the literals brace-free. */
  lemma FillOneBraceFree(c: seq<Piece>, i: nat, r: string)
    requires LiteralsBraceFree(c) && '{' !in r
    ensures LiteralsBraceFree(FillOne(c, i, r))
  {
  }

  /**
   * Substitution on the text agrees with the reference on the pieces,
   * provided no literal and no parameter contains `{` (a parameter that
   * spells a later placeholder would be replaced again).
   */
  lemma {:induction false} FillFromRenders(c: seq<Piece>, params: seq<string>, from: nat)
    requires from >= 1
    requires LiteralsBraceFree(c)
    requires forall k | 0 <= k < |params| :: '{' !in params[k]
    ensures FillFrom(Render(c), params, from) == Render(FillPiecesFrom(c, params, from))
    decreases |params| + 1 - from
  {
    if from > |params| {
      assert FillPiecesFrom(c, params, from) == c;
    } else {
      var v := params[from - 1];
      var c1 := FillOne(c, from, v);
      ReplaceRender(c, from, v);
      FillOneBraceFree(c, from, v);
      FillFromRenders(c1, params, from + 1);
      FillOneThenRest(c, params, from);
    }
  }

  /**
   * The substitution of `send_template_message`: `{{i}}` becomes
   * `params[i - 1]` for `i` up to the number of parameters, and every
   * placeholder numbered higher stays in the text.
   */
  lemma FillMeaning(c: seq<Piece>, params: seq<string>)
    requires LiteralsBraceFree(c)
    requires forall k | 0 <= k < |params| :: '{' !in params[k]
    ensures Fill(Render(c), params) == Render(FillPieces(c, params))
  {
    FillFromRenders(c, params, 1);
  }

  // ---- send_template_message / send_bulk_whatsapp ----

  datatype TemplateSend =
    | NotConfigured
    | TemplateNotFound(templateName: string)
    | Handed(to: string, message: string, success: bool)

  /**
   * `send_template_message` on the dictionary `ts` (the service uses
   * `Templates()`): an unconfigured service answers first; an
   * unknown template is reported without a send; otherwise the filled
   * text goes to the formatted address.
   */
  function SendTemplateMessage(ts: seq<Template>, configured: bool, to: string, templateName: string,
                               params: seq<string>, deliver: (string, string) -> bool): (r: TemplateSend)
    ensures !configured <==> r.NotConfigured?
    ensures configured ==> (r.TemplateNotFound? <==> Lookup(ts, templateName).None?)
    ensures r.Handed? ==> r.to == FormatNumber(to)
                          && r.message == Fill(Render(Lookup(ts, templateName).value.content), params)
                          && r.success == deliver(r.to, r.message)
  {
    if !configured then NotConfigured
    else
      match Lookup(ts, templateName)
      case None => TemplateNotFound(templateName)
      case Some(t) =>
        var message := Fill(Render(t.content), params);
        Handed(FormatNumber(to), message, deliver(FormatNumber(to), message))
  }

  /**
   * `send_bulk_whatsapp`, with the provider's answer as `deliver(address, text)`;
   * a Twilio error repeats the number as the recipient gave it.
   */
  method SendBulkWhatsApp(rs: seq<Messaging.Recipient>, message: string, deliver: (string, string) -> Messaging.Answer)
    returns (b: Messaging.Bulk)
    ensures b.total == |rs| == |b.results|
    ensures b.sent + b.failed == b.total
    ensures b.sent == Folds.CountOf(b.results, Messaging.Delivered)
    ensures forall k | 0 <= k < |rs| :: b.results[k] == Messaging.DeliveryFor(rs[k], message, FormatNumber, false, deliver)
    ensures forall k | 0 <= k < |rs| ::
              (b.results[k].MissingPhone? <==> rs[k].phone == "")
              && (b.results[k].Sent? ==>
                    b.results[k].to == FormatNumber(rs[k].phone)
                    && b.results[k].message == Messaging.Personalize(message, rs[k]))
  {
    b := Messaging.SendBulk(rs, message, FormatNumber, false, deliver);
  }
}
