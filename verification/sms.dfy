/**
 * The SMS service and the SMS endpoints' number matching: segment
 * counting, Belgian number normalisation and validation, the `+32`
 * prefixing before a send, and the bulk send. The provider is a parameter:
 * `deliver(number, text)` gives the provider's answer.
 */
module Sms {
  import opened Wrappers
  import opened Text
  import opened Records
  import Messaging
  import Folds

  // ---- _calculate_segments ----

  /** Characters in a single-segment message. */
  const SingleSegment := 160
  /** Characters in each segment after the first, as the service counts them. */
  const NextSegment := 153

  /** The characters that `k` segments hold under that rule: 160 in the first, 153 in each further one. */
  function Capacity(k: nat): int {
    SingleSegment + NextSegment * (k - 1)
  }

  /** `_calculate_segments` as it is written. */
  function SegmentsAsWritten(length: nat): (k: nat)
    ensures k >= 1 && (k == 1 <==> length <= SingleSegment)
  {
    if length <= SingleSegment then 1 else (length - SingleSegment) / NextSegment + 2
  }

  /**
   * The segment count the service's own rule describes: the fewest
   * segments whose capacity holds the message.
   */
  function Segments(length: nat): (k: nat)
    ensures k >= 1 && (k == 1 <==> length <= SingleSegment)
  {
    if length <= SingleSegment then 1 else (length - SingleSegment + NextSegment - 1) / NextSegment + 1
  }

  /** `Segments` is the fewest segments that hold `length` characters. */
  lemma SegmentsFewest(length: nat)
    ensures length <= Capacity(Segments(length))
    ensures Segments(length) > 1 ==> length > Capacity(Segments(length) - 1)
  {
    if length > SingleSegment {
      var q := (length - SingleSegment + NextSegment - 1) / NextSegment;
      assert q * NextSegment <= length - SingleSegment + NextSegment - 1 < (q + 1) * NextSegment;
    }
  }

  /** Both counts grow with the length. */
  lemma SegmentsMonotone(a: nat, b: nat)
    requires a <= b
    ensures Segments(a) <= Segments(b)
    ensures SegmentsAsWritten(a) <= SegmentsAsWritten(b)
  {
    if a > SingleSegment {
      DivMonotone(a - SingleSegment + NextSegment - 1, b - SingleSegment + NextSegment - 1);
      DivMonotone(a - SingleSegment, b - SingleSegment);
    }
  }

  lemma DivMonotone(x: nat, y: nat)
    requires x <= y
    ensures x / NextSegment <= y / NextSegment
  {
  }

  /**
   * The code as written counts one segment too many exactly when the
   * characters past the first segment fill a whole number of further
   * segments; everywhere else the two counts agree.
   */
  lemma AsWrittenOvercounts(length: nat)
    ensures SegmentsAsWritten(length) != Segments(length)
            <==> length > SingleSegment && (length - SingleSegment) % NextSegment == 0
    ensures SegmentsAsWritten(length) == Segments(length) || SegmentsAsWritten(length) == Segments(length) + 1
  {
    if length > SingleSegment {
      var x := length - SingleSegment;
      var q, m := x / NextSegment, x % NextSegment;
      assert x == q * NextSegment + m && 0 <= m < NextSegment;
      if m == 0 {
        assert x + NextSegment - 1 == q * NextSegment + (NextSegment - 1);
        assert (x + NextSegment - 1) / NextSegment == q;
      } else {
        assert x + NextSegment - 1 == (q + 1) * NextSegment + (m - 1);
        assert (x + NextSegment - 1) / NextSegment == q + 1;
      }
    }
  }

  /** A 313-character message fits in two segments, but the code counts three. */
  lemma ExactFillCounterexample()
    ensures 313 <= Capacity(2)
    ensures SegmentsAsWritten(313) == 3 && Segments(313) == 2
  {
  }

  /** The message composer's count, `Math.ceil((length - 160) / 153) + 1` past one segment. */
  function ComposerSegments(length: nat): (k: nat)
    ensures k >= 1
  {
    if length <= SingleSegment then 1 else CeilDiv(length - SingleSegment, NextSegment) + 1
  }

  /** `Math.ceil(a / b)`: the least integer not below the quotient. */
  function CeilDiv(a: nat, b: nat): (c: nat)
    requires b > 0
    ensures c * b >= a
    ensures c > 0 ==> (c - 1) * b < a
  {
    if a == 0 then 0 else if a <= b then 1 else 1 + CeilDiv(a - b, b)
  }

  /** The corrected count is the one the message composer shows. */
  lemma ComposerAgrees(length: nat)
    ensures ComposerSegments(length) == Segments(length)
  {
    if length > SingleSegment {
      var c := CeilDiv(length - SingleSegment, NextSegment);
      SegmentsFewest(length);
      var k := Segments(length);
      assert (k - 1) * NextSegment >= length - SingleSegment;
      assert (k - 2) * NextSegment < length - SingleSegment;
      assert c * NextSegment >= length - SingleSegment;
      assert (c - 1) * NextSegment < length - SingleSegment;
    }
  }

  /** The backend as written and the composer differ exactly on full further segments. */
  lemma ComposerDiffersFromAsWritten(length: nat)
    ensures SegmentsAsWritten(length) != ComposerSegments(length)
            <==> length > SingleSegment && (length - SingleSegment) % NextSegment == 0
  {
    ComposerAgrees(length);
    AsWrittenOvercounts(length);
  }

  // ---- estimate_cost ----

  /** The segment part of `estimate_cost`; the price per segment is a float and is left out. */
  datatype Estimate = Estimate(segments: nat, recipients: int, totalSegments: int)

  /**
   * `estimate_cost` counts segments with `_calculate_segments` as written,
   * so its estimate is the fewest segments, or one more on an exact fill.
   */
  function EstimateCost(message: string, recipients: int): (e: Estimate)
    ensures e.segments == SegmentsAsWritten(|message|) && e.recipients == recipients
    ensures Segments(|message|) <= e.segments <= Segments(|message|) + 1
    ensures e.segments == Segments(|message|)
            <==> !(|message| > SingleSegment && (|message| - SingleSegment) % NextSegment == 0)
    ensures e.totalSegments == e.segments * recipients
    ensures recipients >= 0 ==> recipients <= e.totalSegments
  {
    AsWrittenOvercounts(|message|);
    var segments := SegmentsAsWritten(|message|);
    Estimate(segments, recipients, segments * recipients)
  }

  // ---- normalize_phone_number (SMS endpoints) ----

  /** Every character is a digit or `+`. */
  predicate Clean(s: string) {
    forall i | 0 <= i < |s| :: IsDialChar(s[i])
  }

  /**
   * `normalize_phone_number`: keep digits and `+`; without a leading `+`,
   * a leading `0` becomes `+32` and anything else gets `+32` in front.
   */
  function NormalizePhone(phone: string): (r: string)
    ensures r == "" <==> phone == ""
    ensures r != "" ==> r[0] == '+'
    ensures Clean(r)
  {
    if phone == "" then ""
    else
      var cleaned := DialChars(phone);
      if |cleaned| > 0 && cleaned[0] == '+' then cleaned
      else if |cleaned| > 0 && cleaned[0] == '0' then "+32" + cleaned[1..]
      else "+32" + cleaned
  }

  /** Normalising a normalised number returns it unchanged. */
  lemma NormalizeIdempotent(phone: string)
    ensures NormalizePhone(NormalizePhone(phone)) == NormalizePhone(phone)
  {
    var r := NormalizePhone(phone);
    if r != "" {
      DialCharsOfClean(r);
    }
  }

  /**
   * The local (`0`), international (`+32`) and short spellings of one
   * subscriber number normalise to the same string.
   */
  lemma NormalizeSpellingsMeet(subscriber: string)
    requires subscriber != "" && Clean(subscriber) && subscriber[0] != '+' && subscriber[0] != '0'
    ensures NormalizePhone("0" + subscriber) == "+32" + subscriber
    ensures NormalizePhone("+32" + subscriber) == "+32" + subscriber
    ensures NormalizePhone(subscriber) == "+32" + subscriber
  {
    DialCharsOfClean(subscriber);
    DialCharsOfClean("0" + subscriber);
    assert ("0" + subscriber)[1..] == subscriber;
    DialCharsOfClean("+32" + subscriber);
  }

  lemma SubscriberClean(subscriber: string)
    requires subscriber == "471234567"
    ensures subscriber != "" && Clean(subscriber) && subscriber[0] != '+' && subscriber[0] != '0'
  {
    assert subscriber[0] == '4' && subscriber[1] == '7' && subscriber[2] == '1';
    assert subscriber[3] == '2' && subscriber[4] == '3' && subscriber[5] == '4';
    assert subscriber[6] == '5' && subscriber[7] == '6' && subscriber[8] == '7';
  }

  /**
   * The local, international and short spellings of the mobile number
   * 0471 23 45 67 all normalise to its international form, and the empty
   * number stays empty.
   */
  lemma NormalizeVectors(local: string, international: string, short: string)
    requires local == "0471234567" && international == "+32471234567" && short == "471234567"
    ensures NormalizePhone(local) == international
    ensures NormalizePhone(international) == international
    ensures NormalizePhone(short) == international
    ensures NormalizePhone("") == ""
  {
    SubscriberClean(short);
    NormalizeSpellingsMeet(short);
    assert local == "0" + short;
    assert international == "+32" + short;
  }

  /** The practice's `tel`, normalised, is `key`. */
  predicate HasPhone(p: Practice, key: string) {
    NormalizePhone(p.tel) == key
  }

  /** The first index whose practice's normalised `tel` is `key`. */
  function FirstWithPhone(ps: seq<Practice>, key: string): (r: Option<nat>)
    ensures r.Some? ==> r.value < |ps| && HasPhone(ps[r.value], key)
    ensures r.Some? ==> forall j | 0 <= j < r.value :: !HasPhone(ps[j], key)
    ensures r.None? <==> forall j | 0 <= j < |ps| :: !HasPhone(ps[j], key)
    decreases |ps|
  {
    if ps == [] then None
    else if HasPhone(ps[0], key) then Some(0)
    else
      match FirstWithPhone(ps[1..], key)
      case None => None
      case Some(k) => Some(k + 1)
  }

  /** The practice whose phone matches the sender of a reply: the first whose normalised `tel` equals the normalised sender. */
  function MatchSender(ps: seq<Practice>, from: string): (r: Option<nat>)
    ensures r.Some? ==> r.value < |ps| && NormalizePhone(ps[r.value].tel) == NormalizePhone(from)
    ensures r.Some? ==> forall j | 0 <= j < r.value :: NormalizePhone(ps[j].tel) != NormalizePhone(from)
    ensures r.None? <==> forall j | 0 <= j < |ps| :: NormalizePhone(ps[j].tel) != NormalizePhone(from)
  {
    FirstWithPhone(ps, NormalizePhone(from))
  }

  /**
   * The practice an incoming SMS is attributed to: only a message with a
   * body and a sender is a reply, and then the first matching practice.
   */
  function IncomingReply(ps: seq<Practice>, from: string, body: string): (r: Option<nat>)
    ensures r.Some? ==> body != "" && from != "" && r == MatchSender(ps, from)
    ensures body != "" && from != "" ==> r == MatchSender(ps, from)
  {
    if body == "" || from == "" then None else MatchSender(ps, from)
  }

  /** A practice without a phone number is never matched to a reply. */
  lemma EmptyTelNeverMatches(ps: seq<Practice>, from: string, body: string)
    requires IncomingReply(ps, from, body).Some?
    ensures ps[IncomingReply(ps, from, body).value].tel != ""
  {
  }

  // ---- validate_phone_number ----

  datatype Validation = Valid(formatted: string) | EmptyPhone | InvalidLength | InvalidFormat

  /**
   * `validate_phone_number`: a cleaned `+32` number must have 12
   * characters, a local `0` number 10, and anything else 9 (it is then
   * prefixed with `+32`).
   */
  function ValidatePhone(phone: string): (v: Validation)
    ensures v == EmptyPhone <==> phone == ""
    ensures v.Valid? ==> StartsWith(v.formatted, "+32") && |v.formatted| == 12 && Clean(v.formatted)
    ensures v.InvalidLength? <==>
              phone != "" && ((StartsWith(DialChars(phone), "+32") && |DialChars(phone)| != 12)
                              || (!StartsWith(DialChars(phone), "+32") && StartsWith(DialChars(phone), "0")
                                  && |DialChars(phone)| != 10))
    ensures v.InvalidFormat? <==>
              phone != "" && !StartsWith(DialChars(phone), "+32") && !StartsWith(DialChars(phone), "0")
              && |DialChars(phone)| != 9
  {
    if phone == "" then EmptyPhone
    else
      var cleaned := DialChars(phone);
      if StartsWith(cleaned, "+32") then
        if |cleaned| == 12 then Valid(cleaned) else InvalidLength
      else if StartsWith(cleaned, "0") then
        var formatted := "+32" + cleaned[1..];
        if |formatted| == 12 then Valid(formatted) else InvalidLength
      else
        var formatted := "+32" + cleaned;
        if |formatted| == 12 then Valid(formatted) else InvalidFormat
  }

  /** A formatted number validates to itself. */
  lemma ValidateFormatted(phone: string)
    requires ValidatePhone(phone).Valid?
    ensures ValidatePhone(ValidatePhone(phone).formatted) == ValidatePhone(phone)
  {
    DialCharsOfClean(ValidatePhone(phone).formatted);
  }

  /**
   * A valid number is formatted as the endpoints normalise it, unless its
   * cleaned form starts with a foreign `+` prefix.
   */
  lemma ValidateAgreesWithNormalize(phone: string)
    requires ValidatePhone(phone).Valid?
    requires StartsWith(DialChars(phone), "+") ==> StartsWith(DialChars(phone), "+32")
    ensures ValidatePhone(phone).formatted == NormalizePhone(phone)
  {
  }

  /**
   * A foreign number of nine cleaned characters is accepted with `+32`
   * put in front of its own `+`, so the formatted number holds two `+`.
   */
  lemma ForeignNineAccepted(phone: string)
    requires |DialChars(phone)| == 9 && DialChars(phone)[0] == '+' && DialChars(phone)[1] != '3'
    ensures ValidatePhone(phone) == Valid("+32" + DialChars(phone))
    ensures NormalizePhone(phone) == DialChars(phone) != ValidatePhone(phone).formatted
  {
  }

  // ---- send_sms / send_bulk_sms ----

  /** The number `send_sms` hands to the provider: `+32` is put in front first, then the number is cleaned. */
  function SendNumber(to: string): (r: string)
    ensures Clean(r)
  {
    var prefixed :=
      if |to| > 0 && to[0] == '+' then to
      else if |to| > 0 && to[0] == '0' then "+32" + to[1..]
      else "+32" + to;
    DialChars(prefixed)
  }

  /** On a number that is already clean, the send and the endpoints agree. */
  lemma SendNumberAgreesOnClean(to: string)
    requires to != "" && Clean(to)
    ensures SendNumber(to) == NormalizePhone(to)
  {
    DialCharsOfClean(to);
    if to[0] == '+' {
    } else if to[0] == '0' {
      DialCharsOfClean("+32" + to[1..]);
    } else {
      DialCharsOfClean("+32" + to);
    }
  }

  /**
   * A local number behind a leading character that is not a digit, such as
   * a space: the send keeps the `0` (it puts `+32` in front before
   * cleaning) while the endpoints drop it. An empty number is sent to "+32".
   */
  lemma SendNumberDiffers(local: string)
    requires local != "" && Clean(local) && local[0] == '0'
    ensures SendNumber(" " + local) == "+32" + local
    ensures NormalizePhone(" " + local) == "+32" + local[1..]
    ensures SendNumber("") == "+32" && NormalizePhone("") == ""
  {
    var prefix := "+32";
    assert Clean(prefix) by { assert prefix[0] == '+' && prefix[1] == '3' && prefix[2] == '2'; }
    DialCharsOfClean(prefix);
    DialCharsOfClean(local);
    assert DialChars(" " + local) == local by {
      assert (" " + local)[1..] == local;
    }
    DialCharsConcat(prefix, " " + local);
    assert prefix + (" " + local) == "+32" + " " + local;
    assert prefix + "" == prefix;
  }

  /**
   * `send_bulk_sms`, with the provider's answer as `deliver(number, text)`;
   * a Twilio error repeats the number as `send_sms` cleaned it.
   */
  method SendBulkSms(rs: seq<Messaging.Recipient>, message: string, deliver: (string, string) -> Messaging.Answer)
    returns (b: Messaging.Bulk)
    ensures b.total == |rs| == |b.results|
    ensures b.sent + b.failed == b.total
    ensures forall k | 0 <= k < |rs| :: b.results[k] == Messaging.DeliveryFor(rs[k], message, SendNumber, true, deliver)
    ensures forall k | 0 <= k < |rs| ::
              (b.results[k].MissingPhone? <==> rs[k].phone == "")
              && (b.results[k].Sent? ==>
                    b.results[k].to == SendNumber(rs[k].phone)
                    && b.results[k].message == Messaging.Personalize(message, rs[k]))
    ensures b.sent == Folds.CountOf(b.results, Messaging.Delivered)
  {
    b := Messaging.SendBulk(rs, message, SendNumber, true, deliver);
  }
}
