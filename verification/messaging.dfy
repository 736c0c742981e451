/**
 * What the SMS and the WhatsApp services share: the recipient dictionary of
 * a bulk send, the `{placeholder}` personalisation, and the bulk loop that
 * counts sent and failed recipients. The two services differ only in how
 * they format the number and in the provider they hand the message to, so
 * both are parameters here.
 */
module Messaging {
  import opened Wrappers
  import opened Text
  import Folds

  /**
   * One recipient of a bulk send. A key that is missing is `None`; an empty
   * `phone_number` and a missing one are both falsy, so `phone` is "" for
   * both.
   */
  datatype Recipient = Recipient(
    practiceId: Option<int>,
    phone: string,
    naam: Option<string>,
    name: Option<string>,
    gemeente: Option<string>,
    city: Option<string>,
    praktijk: Option<string>,
    practice: Option<string>,
    email: Option<string>)

  /** `recipient.get('naam', recipient.get('name', ''))`. */
  function NameValue(r: Recipient): string {
    r.naam.GetOr(r.name.GetOr(""))
  }

  /** `recipient.get('gemeente', recipient.get('city', ''))`. */
  function CityValue(r: Recipient): string {
    r.gemeente.GetOr(r.city.GetOr(""))
  }

  /** `recipient.get('praktijk', recipient.get('practice', ''))`. */
  function PracticeValue(r: Recipient): string {
    r.praktijk.GetOr(r.practice.GetOr(""))
  }

  function EmailValue(r: Recipient): string {
    r.email.GetOr("")
  }

  /**
   * The placeholders with their values, in the order the replacement
   * dictionary lists them; the replacements are applied one after another
   * in this order.
   */
  function Replacements(r: Recipient): seq<(string, string)> {
    [("{naam}", NameValue(r)), ("{name}", NameValue(r)),
     ("{gemeente}", CityValue(r)), ("{city}", CityValue(r)),
     ("{praktijk}", PracticeValue(r)), ("{practice}", PracticeValue(r)),
     ("{email}", EmailValue(r))]
  }

  /** Applies `table` left to right, each entry replacing every occurrence of its key. */
  function ReplaceAll(s: string, table: seq<(string, string)>): string
    requires forall k | 0 <= k < |table| :: |table[k].0| > 0
    decreases |table|
  {
    if table == [] then s
    else ReplaceAll(Replace(s, table[0].0, table[0].1), table[1..])
  }

  /** `_personalize_message`. */
  function Personalize(template: string, r: Recipient): string {
    ReplaceAll(template, Replacements(r))
  }

  /** A string without `{` contains no placeholder. */
  lemma NoBraceNoPlaceholder(s: string, pattern: string)
    requires '{' !in s && |pattern| > 0 && pattern[0] == '{'
    ensures !Contains(s, pattern)
  {
  }

  /** Replacing placeholders in a brace-free string changes nothing. */
  lemma {:induction false} ReplaceAllBraceFree(s: string, table: seq<(string, string)>)
    requires forall k | 0 <= k < |table| :: |table[k].0| > 0 && table[k].0[0] == '{'
    requires '{' !in s
    ensures ReplaceAll(s, table) == s
    decreases |table|
  {
    if table != [] {
      NoBraceNoPlaceholder(s, table[0].0);
      ReplaceAbsent(s, table[0].0, table[0].1);
      ReplaceAllBraceFree(s, table[1..]);
    }
  }

  /** A message without `{` is sent as written, whoever receives it. */
  lemma PersonalizeBraceFree(template: string, r: Recipient)
    requires '{' !in template
    ensures Personalize(template, r) == template
  {
    ReplaceAllBraceFree(template, Replacements(r));
  }

  /**
   * A message that is just `{naam}` becomes the recipient's name (the
   * `naam` key, else the `name` key, else ""), provided the name itself
   * holds no placeholder; `{name}` is the same placeholder.
   */
  lemma PersonalizeName(r: Recipient)
    requires '{' !in NameValue(r)
    ensures Personalize("{naam}", r) == NameValue(r)
    ensures Personalize("{name}", r) == NameValue(r)
  {
    var t, v := Replacements(r), NameValue(r);
    assert t[0] == ("{naam}", v) && t[1] == ("{name}", v);
    assert "{naam}"[6..] == "" && "{name}"[6..] == "";
    assert Replace("{naam}", "{naam}", v) == v;
    assert ReplaceAll("{naam}", t) == ReplaceAll(v, t[1..]);
    ReplaceAllBraceFree(v, t[1..]);
    assert "{name}"[..6] != "{naam}" by { assert "{name}"[3] != "{naam}"[3]; }
    assert Replace("{name}", "{naam}", v) == "{name}" by {
      ReplaceAbsent("{name}", "{naam}", v);
    }
    assert Replace("{name}", "{name}", v) == v;
    assert t[1..][0] == ("{name}", v) && t[1..][1..] == t[2..];
    assert ReplaceAll("{name}", t) == ReplaceAll("{name}", t[1..]);
    assert ReplaceAll("{name}", t[1..]) == ReplaceAll(v, t[2..]);
    ReplaceAllBraceFree(v, t[2..]);
  }

  // ---- the bulk loop of send_bulk_sms / send_bulk_whatsapp ----

  /**
   * The provider's answer to one send: accepted, a Twilio error, any other
   * exception, or a service without credentials.
   */
  datatype Answer = Accepted | TwilioError | OtherError | NotConfigured

  /**
   * One entry of the bulk result list. Only a missing phone number and a
   * send that went out carry the practice id; a Twilio error repeats a
   * number, and the other failures carry neither. The provider's error text
   * is not modelled.
   */
  datatype Delivery =
    | MissingPhone(practiceId: Option<int>)
    | Sent(practiceId: Option<int>, to: string, message: string)
    | ProviderFailed(to: string)
    | Failed

  predicate Delivered(d: Delivery) {
    d.Sent?
  }

  predicate Undelivered(d: Delivery) {
    !Delivered(d)
  }

  datatype Bulk = Bulk(total: nat, sent: nat, failed: nat, results: seq<Delivery>)

  /**
   * What the service records for one recipient. `format` turns the phone
   * number into the provider's address; a Twilio error repeats that address
   * when `echoFormatted` holds and the number as given otherwise.
   */
  function DeliveryFor(r: Recipient, message: string, format: string -> string, echoFormatted: bool,
                       deliver: (string, string) -> Answer): (d: Delivery)
    ensures d.MissingPhone? <==> r.phone == ""
    ensures d.MissingPhone? || d.Sent? ==> d.practiceId == r.practiceId
    ensures Delivered(d) <==> r.phone != "" && deliver(format(r.phone), Personalize(message, r)) == Accepted
    ensures d.Sent? ==> d.to == format(r.phone) && d.message == Personalize(message, r)
    ensures d.ProviderFailed? <==> r.phone != "" && deliver(format(r.phone), Personalize(message, r)) == TwilioError
    ensures d.ProviderFailed? ==> d.to == (if echoFormatted then format(r.phone) else r.phone)
  {
    if r.phone == "" then MissingPhone(r.practiceId)
    else
      var text := Personalize(message, r);
      match deliver(format(r.phone), text)
      case Accepted => Sent(r.practiceId, format(r.phone), text)
      case TwilioError => ProviderFailed(if echoFormatted then format(r.phone) else r.phone)
      case OtherError => Failed
      case NotConfigured => Failed
  }

  /**
   * The bulk loop: a recipient without a phone number fails without a send,
   * every other one is personalised and handed to the provider, whose
   * answer `deliver(address, text)` decides success.
   */
  method SendBulk(rs: seq<Recipient>, message: string, format: string -> string, echoFormatted: bool,
                  deliver: (string, string) -> Answer)
    returns (b: Bulk)
    ensures b.total == |rs| == |b.results|
    ensures b.sent + b.failed == b.total
    ensures b.sent == Folds.CountOf(b.results, Delivered)
    ensures b.failed == Folds.CountOf(b.results, Undelivered)
    ensures forall k | 0 <= k < |rs| :: b.results[k] == DeliveryFor(rs[k], message, format, echoFormatted, deliver)
  {
    var sent, failed := 0, 0;
    var results: seq<Delivery> := [];
    var i := 0;
    while i < |rs|
      invariant 0 <= i <= |rs| && |results| == i
      invariant sent + failed == i
      invariant sent == Folds.CountOf(results, Delivered)
      invariant failed == Folds.CountOf(results, Undelivered)
      invariant forall k | 0 <= k < i :: results[k] == DeliveryFor(rs[k], message, format, echoFormatted, deliver)
    {
      var d := DeliveryFor(rs[i], message, format, echoFormatted, deliver);
      Folds.CountOfSnoc(results, d, Delivered);
      Folds.CountOfSnoc(results, d, Undelivered);
      if Delivered(d) {
        sent := sent + 1;
      } else {
        failed := failed + 1;
      }
      ghost var before := results;
      results := results + [d];
      assert forall k | 0 <= k < i :: results[k] == before[k];
      assert results[i] == d;
      i := i + 1;
    }
    return Bulk(|rs|, sent, failed, results);
  }
}
