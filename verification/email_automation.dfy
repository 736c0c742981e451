/**
 * The e-mail campaign engine: which practices get an e-mail today, what
 * sending one does to the practice's workflow, and the campaign loop that
 * counts sent, failed and skipped practices under a daily limit.
 *
 * The configuration values (the maximum number of e-mails per practice and
 * the daily limit) and the mail provider's answers are parameters; the
 * clock is `now`, in seconds.
 */
module EmailAutomation {
  import opened Wrappers
  import opened Records
  import opened EmailTemplates
  import Folds

  // ---- _filter_practices_for_campaign ----

  /** `datetime.fromisoformat` rejected a `next_followup_date`; the exception ends the campaign. */
  datatype DateError = UnreadableFollowUp(nr: Option<int>)

  /** The checks before the follow-up date: an address, not a customer, reachable, not over the maximum. */
  predicate Reachable(p: Practice, maxEmails: int) {
    p.email != "" && p.status != Some("Klant")
    && !p.workflow.unsubscribed && !p.workflow.bounced
    && p.workflow.emailsSent < maxEmails
  }

  /** A practice whose follow-up date is read, and cannot be. */
  predicate BadDate(p: Practice, maxEmails: int) {
    Reachable(p, maxEmails) && p.workflow.nextFollowupDate == Some(Malformed)
  }

  /** Due for an e-mail on calendar day `today`: reachable and no follow-up date after today. */
  predicate Eligible(p: Practice, today: int, maxEmails: int) {
    Reachable(p, maxEmails)
    && match p.workflow.nextFollowupDate
       case None => true
       case Some(At(t)) => today >= DayOf(t)
       case Some(Malformed) => false
  }

  function FilterForCampaign(ps: seq<Practice>, today: int, maxEmails: int): (r: Result<seq<Practice>, DateError>)
    ensures r.Failure? <==> exists i | 0 <= i < |ps| :: BadDate(ps[i], maxEmails)
    ensures r.Success? ==> |r.value| <= |ps|
    ensures r.Success? ==> forall x | x in r.value :: x in ps && Eligible(x, today, maxEmails)
  {
    if ps == [] then Success([])
    else if BadDate(ps[0], maxEmails) then Failure(UnreadableFollowUp(ps[0].nr))
    else
      var rest := FilterForCampaign(ps[1..], today, maxEmails);
      if rest.Failure? then
        assert exists i | 0 <= i < |ps[1..]| :: BadDate(ps[1..][i], maxEmails);
        var i :| 0 <= i < |ps[1..]| && BadDate(ps[1..][i], maxEmails);
        assert BadDate(ps[i + 1], maxEmails);
        rest
      else
        Success((if Eligible(ps[0], today, maxEmails) then [ps[0]] else []) + rest.value)
  }

  /** Every eligible practice is kept. */
  lemma {:induction false} FilterComplete(ps: seq<Practice>, today: int, maxEmails: int, i: nat)
    requires i < |ps| && Eligible(ps[i], today, maxEmails)
    requires FilterForCampaign(ps, today, maxEmails).Success?
    ensures ps[i] in FilterForCampaign(ps, today, maxEmails).value
    decreases |ps|
  {
    if i > 0 {
      assert !BadDate(ps[0], maxEmails);
      FilterComplete(ps[1..], today, maxEmails, i - 1);
    }
  }

  /** A successful filter of a non-empty list: the head's date reads, and the rest filters on its own. */
  lemma FilterHead(ps: seq<Practice>, today: int, maxEmails: int)
    requires ps != [] && FilterForCampaign(ps, today, maxEmails).Success?
    ensures !BadDate(ps[0], maxEmails) && FilterForCampaign(ps[1..], today, maxEmails).Success?
    ensures FilterForCampaign(ps, today, maxEmails).value
            == (if Eligible(ps[0], today, maxEmails) then [ps[0]] else []) + FilterForCampaign(ps[1..], today, maxEmails).value
  {
  }

  /** The converse step: a readable head and a successful rest filter the whole list. */
  lemma FilterHeadBack(ps: seq<Practice>, today: int, maxEmails: int)
    requires ps != [] && !BadDate(ps[0], maxEmails) && FilterForCampaign(ps[1..], today, maxEmails).Success?
    ensures FilterForCampaign(ps, today, maxEmails).Success?
    ensures FilterForCampaign(ps, today, maxEmails).value
            == (if Eligible(ps[0], today, maxEmails) then [ps[0]] else []) + FilterForCampaign(ps[1..], today, maxEmails).value
  {
  }

  lemma ConcatAssoc(x: seq<Practice>, y: seq<Practice>, z: seq<Practice>)
    ensures x + (y + z) == (x + y) + z
  {
  }

  /** The filter keeps input order: filtering a concatenation concatenates the filtered parts. */
  lemma {:induction false} FilterConcat(a: seq<Practice>, b: seq<Practice>, today: int, maxEmails: int)
    requires FilterForCampaign(a + b, today, maxEmails).Success?
    ensures FilterForCampaign(a, today, maxEmails).Success? && FilterForCampaign(b, today, maxEmails).Success?
    ensures FilterForCampaign(a + b, today, maxEmails).value
            == FilterForCampaign(a, today, maxEmails).value + FilterForCampaign(b, today, maxEmails).value
    decreases |a|
  {
    if a == [] {
      assert a + b == b;
    } else {
      var ab := a + b;
      assert ab[0] == a[0] && ab[1..] == a[1..] + b;
      FilterHead(ab, today, maxEmails);
      FilterConcat(a[1..], b, today, maxEmails);
      FilterHeadBack(a, today, maxEmails);
      var h := if Eligible(a[0], today, maxEmails) then [a[0]] else [];
      ConcatAssoc(h, FilterForCampaign(a[1..], today, maxEmails).value, FilterForCampaign(b, today, maxEmails).value);
    }
  }

  // ---- _update_practice_workflow ----

  /**
   * `_update_practice_workflow` after a successful send of `template` whose
   * follow-up comes `delay` days later. A zero delay is falsy, so no
   * follow-up date is set; otherwise it is midnight of the day `delay` days
   * after today.
   */
  function UpdateWorkflow(p: Practice, template: string, delay: int, now: int): (q: Practice)
    ensures q.workflow.emailsSent == p.workflow.emailsSent + 1
    ensures q.workflow.lastContact == Some(At(now)) && q.workflow.lastEmailDate == Some(At(now))
    ensures q.workflow.lastEmailTemplate == Some(template)
    ensures q.workflow.nextFollowupDate.None? <==> delay == 0
    ensures delay != 0 ==> q.workflow.nextFollowupDate.value.At?
                           && DayOf(q.workflow.nextFollowupDate.value.secs) == DayOf(now) + delay
    ensures q.status == (if p.status == Some("Nog niet benaderd") then Some("Benaderd") else p.status)
    ensures q.(status := p.status,
               workflow := q.workflow.(lastContact := p.workflow.lastContact,
                                       emailsSent := p.workflow.emailsSent,
                                       lastEmailDate := p.workflow.lastEmailDate,
                                       lastEmailTemplate := p.workflow.lastEmailTemplate,
                                       nextFollowupDate := p.workflow.nextFollowupDate))
            == p
  {
    var followUp := if delay != 0 then Some(At((DayOf(now) + delay) * SecondsPerDay)) else None;
    var w := p.workflow.(
      lastContact := Some(At(now)),
      emailsSent := p.workflow.emailsSent + 1,
      lastEmailDate := Some(At(now)),
      lastEmailTemplate := Some(template),
      nextFollowupDate := followUp);
    var status := if p.status == Some("Nog niet benaderd") then Some("Benaderd") else p.status;
    p.(workflow := w, status := status)
  }

  /** After an e-mail with a follow-up delay, the practice is not due again before that day. */
  lemma FollowUpWaits(p: Practice, template: string, delay: int, now: int, today: int, maxEmails: int)
    requires delay != 0
    requires Eligible(UpdateWorkflow(p, template, delay, now), today, maxEmails)
    ensures today >= DayOf(now) + delay
  {
  }

  /** The first e-mail has no delay, so the practice is due again at once if it is still under the maximum. */
  lemma InitialOutreachSetsNoFollowUp(p: Practice, now: int)
    requires p.workflow.emailsSent == 0 && p.workflow.lastReplyDate.None?
    ensures NextTemplate(0, None) == Some(Next("initial_outreach", 0))
    ensures UpdateWorkflow(p, "initial_outreach", 0, now).workflow.nextFollowupDate.None?
  {
  }

  /** Sending the template the sequence asks for moves the practice one step along the sequence. */
  lemma SendAdvancesSequence(p: Practice, now: int)
    requires p.workflow.lastReplyDate.None?
    requires NextTemplate(p.workflow.emailsSent, None).Some?
    ensures var nx := NextTemplate(p.workflow.emailsSent, None).value;
            var q := UpdateWorkflow(p, nx.template, nx.delayDays, now);
            NextTemplate(q.workflow.emailsSent, q.workflow.lastReplyDate)
            == NextTemplate(p.workflow.emailsSent + 1, None)
  {
  }

  // ---- _process_single_practice ----

  /** What the provider did with the e-mail: sent it, refused it, or raised. */
  datatype SendOutcome = Delivered | Refused | Crashed

  /** The result dictionary of one practice. */
  datatype Single = Sent(practiceId: int, template: string) | NoTemplate | Undelivered | Errored

  predicate IsSent(s: Single) {
    s.Sent?
  }

  datatype Processed = Processed(ok: bool, result: Single, practice: Practice)

  /**
   * `_process_single_practice`. A practice without a next template is
   * reported as skipped but counts as a failure; a practice without an id
   * fails when the provider's arguments are built.
   */
  function ProcessSingle(p: Practice, now: int, send: SendOutcome): (r: Processed)
    ensures r.ok <==> r.result.Sent?
    ensures NextTemplate(p.workflow.emailsSent, p.workflow.lastReplyDate).None? ==> r.result == NoTemplate
    ensures p.nr.None? ==> !r.ok
    ensures !r.ok ==> r.practice == p
    ensures r.ok ==> r.result.practiceId == p.nr.value
                     && r.practice.workflow.emailsSent == p.workflow.emailsSent + 1
                     && r.practice.workflow.lastEmailTemplate == Some(r.result.template)
    ensures var next := NextTemplate(p.workflow.emailsSent, p.workflow.lastReplyDate);
            next.Some? && p.nr.Some? ==>
              && (send == Delivered ==> r.ok && r.result.template == next.value.template
                                        && r.practice == UpdateWorkflow(p, next.value.template, next.value.delayDays, now))
              && (send == Refused ==> r.result == Undelivered)
              && (send == Crashed ==> r.result == Errored)
  {
    match NextTemplate(p.workflow.emailsSent, p.workflow.lastReplyDate)
    case None => Processed(false, NoTemplate, p)
    case Some(nx) =>
      if p.nr.None? then Processed(false, Errored, p)
      else
        match send
        case Delivered => Processed(true, Sent(p.nr.value, nx.template), UpdateWorkflow(p, nx.template, nx.delayDays, now))
        case Refused => Processed(false, Undelivered, p)
        case Crashed => Processed(false, Errored, p)
  }

  // ---- process_campaign ----

  datatype Campaign = Campaign(
    successCount: nat,
    failedCount: nat,
    skippedCount: nat,
    results: seq<Single>,
    updated: seq<Practice>,
    sentToday: int)

  /** The campaign loop's body for one practice: its result is appended and the counters move. */
  function Record(c: Campaign, out: Processed): Campaign {
    if out.ok then
      c.(successCount := c.successCount + 1, results := c.results + [out.result],
         updated := c.updated + [out.practice], sentToday := c.sentToday + 1)
    else
      c.(failedCount := c.failedCount + 1, results := c.results + [out.result])
  }

  /** The updated records of the practices in `todo` whose e-mail went out, in order. */
  function SentPractices(todo: seq<Practice>, now: int, send: Practice -> SendOutcome): (u: seq<Practice>)
    ensures |u| <= |todo|
    decreases |todo|
  {
    if todo == [] then []
    else
      var out := ProcessSingle(todo[|todo| - 1], now, send(todo[|todo| - 1]));
      SentPractices(todo[..|todo| - 1], now, send) + (if out.ok then [out.practice] else [])
  }

  /** After the first `i` practices of `todo`, the counters agree with the results collected. */
  predicate Consistent(c: Campaign, todo: seq<Practice>, i: nat, now: int, sentBefore: int,
                       send: Practice -> SendOutcome)
    requires i <= |todo|
  {
    && c.successCount + c.failedCount == i == |c.results|
    && c.successCount == Folds.CountOf(c.results, IsSent)
    && |c.updated| == c.successCount
    && c.updated == SentPractices(todo[..i], now, send)
    && c.sentToday == sentBefore + c.successCount
    && c.skippedCount == 0
    && forall k | 0 <= k < i :: c.results[k] == ProcessSingle(todo[k], now, send(todo[k])).result
  }

  lemma RecordKeepsConsistent(c: Campaign, todo: seq<Practice>, i: nat, now: int, sentBefore: int,
                              send: Practice -> SendOutcome)
    requires i < |todo| && Consistent(c, todo, i, now, sentBefore, send)
    ensures Consistent(Record(c, ProcessSingle(todo[i], now, send(todo[i]))), todo, i + 1, now, sentBefore, send)
  {
    var out := ProcessSingle(todo[i], now, send(todo[i]));
    Folds.CountOfSnoc(c.results, out.result, IsSent);
    var r := Record(c, out);
    assert r.results == c.results + [out.result];
    assert todo[..i + 1][..i] == todo[..i];
    forall k | 0 <= k < i + 1
      ensures r.results[k] == ProcessSingle(todo[k], now, send(todo[k])).result
    {
      if k < i {
        assert r.results[k] == c.results[k];
      }
    }
  }

  /**
   * What a campaign reports about the practices due today, `todo`: the
   * first `|c.results|` of them were processed in order, the rest were
   * skipped, and the counters, the updated records and the sent-today
   * counter agree with those results.
   */
  predicate Reports(c: Campaign, todo: seq<Practice>, now: int, sentBefore: int, send: Practice -> SendOutcome) {
    && c.successCount + c.failedCount + c.skippedCount == |todo|
    && |c.results| == c.successCount + c.failedCount
    && c.successCount == Folds.CountOf(c.results, IsSent)
    && |c.updated| == c.successCount
    && c.updated == SentPractices(todo[..|c.results|], now, send)
    && c.sentToday == sentBefore + c.successCount
    && forall k | 0 <= k < |c.results| :: c.results[k] == ProcessSingle(todo[k], now, send(todo[k])).result
  }

  /** Stopping after `i` practices: the rest are skipped, and the report covers the first `i`. */
  lemma StopReports(c: Campaign, todo: seq<Practice>, i: nat, now: int, sentBefore: int,
                    send: Practice -> SendOutcome)
    requires i <= |todo| && Consistent(c, todo, i, now, sentBefore, send)
    ensures Reports(c.(skippedCount := |todo| - i), todo, now, sentBefore, send)
    ensures |c.results| == i
  {
  }

  /**
   * Each processed practice was reached while the daily limit still allowed
   * a send: the e-mails sent before it stayed below the limit, unless forced.
   */
  predicate UnderLimit(results: seq<Single>, force: bool, dailyLimit: int, sentBefore: int) {
    forall k | 0 <= k < |results| :: force || sentBefore + Folds.CountOf(results[..k], IsSent) < dailyLimit
  }

  /** A practice processed while under the limit keeps every earlier one under it. */
  lemma UnderLimitSnoc(results: seq<Single>, x: Single, force: bool, dailyLimit: int, sentBefore: int)
    requires UnderLimit(results, force, dailyLimit, sentBefore)
    requires force || sentBefore + Folds.CountOf(results, IsSent) < dailyLimit
    ensures UnderLimit(results + [x], force, dailyLimit, sentBefore)
  {
    var r := results + [x];
    assert r[..|results|] == results;
    forall k | 0 <= k < |r|
      ensures force || sentBefore + Folds.CountOf(r[..k], IsSent) < dailyLimit
    {
      if k < |results| {
        assert r[..k] == results[..k];
      }
    }
  }

  /** The campaign loop's state after the first `i` practices of `todo`. */
  predicate Running(c: Campaign, todo: seq<Practice>, i: nat, now: int, force: bool, dailyLimit: int,
                    sentBefore: int, send: Practice -> SendOutcome)
  {
    && i <= |todo|
    && Consistent(c, todo, i, now, sentBefore, send)
    && (!force && sentBefore <= dailyLimit ==> c.sentToday <= dailyLimit)
    && (!force && sentBefore >= dailyLimit ==> i == 0)
    && UnderLimit(c.results, force, dailyLimit, sentBefore)
  }

  /** Before the first practice: nothing processed, nothing sent beyond the earlier count. */
  lemma RunningStart(todo: seq<Practice>, now: int, force: bool, dailyLimit: int, sentBefore: int,
                     send: Practice -> SendOutcome)
    ensures Running(Campaign(0, 0, 0, [], [], sentBefore), todo, 0, now, force, dailyLimit, sentBefore, send)
  {
    assert todo[..0] == [];
  }

  /** One more practice, processed while the limit allows it, keeps the loop's state. */
  lemma RunningStep(c: Campaign, todo: seq<Practice>, i: nat, now: int, force: bool, dailyLimit: int,
                    sentBefore: int, send: Practice -> SendOutcome)
    requires i < |todo| && Running(c, todo, i, now, force, dailyLimit, sentBefore, send)
    requires force || c.sentToday < dailyLimit
    ensures Running(Record(c, ProcessSingle(todo[i], now, send(todo[i]))), todo, i + 1, now, force, dailyLimit,
                    sentBefore, send)
  {
    RecordKeepsConsistent(c, todo, i, now, sentBefore, send);
    UnderLimitSnoc(c.results, ProcessSingle(todo[i], now, send(todo[i])).result, force, dailyLimit, sentBefore);
  }

  /** Where the loop stops, the practices not reached are skipped and the campaign reports. */
  lemma StopRunning(c: Campaign, todo: seq<Practice>, i: nat, now: int, force: bool, dailyLimit: int,
                    sentBefore: int, send: Practice -> SendOutcome)
    requires Running(c, todo, i, now, force, dailyLimit, sentBefore, send)
    requires !(i < |todo| && (force || c.sentToday < dailyLimit))
    ensures var d := c.(skippedCount := |todo| - i);
            && Reports(d, todo, now, sentBefore, send)
            && (force ==> d.skippedCount == 0)
            && (d.skippedCount > 0 ==> !force && d.sentToday >= dailyLimit)
            && (!force && sentBefore <= dailyLimit ==> d.sentToday <= dailyLimit)
            && (!force && sentBefore >= dailyLimit ==> d.successCount == 0 && d.skippedCount == |todo|)
            && UnderLimit(d.results, force, dailyLimit, sentBefore)
  {
    StopReports(c, todo, i, now, sentBefore, send);
  }

  /**
   * The loop of `process_campaign` over the practices due today: processes
   * them in order until the daily limit is reached (unless forced). The
   * provider's answer for each practice is `send`; the counter of e-mails
   * sent earlier today is `sentBefore`.
   */
  method RunCampaign(todo: seq<Practice>, now: int, force: bool, dailyLimit: int, sentBefore: int,
                     send: Practice -> SendOutcome)
    returns (c: Campaign)
    ensures Reports(c, todo, now, sentBefore, send)
    ensures force ==> c.skippedCount == 0
    ensures c.skippedCount > 0 ==> !force && c.sentToday >= dailyLimit
    ensures !force && sentBefore <= dailyLimit ==> c.sentToday <= dailyLimit
    ensures !force && sentBefore >= dailyLimit ==> c.successCount == 0 && c.skippedCount == |todo|
    ensures UnderLimit(c.results, force, dailyLimit, sentBefore)
  {
    c := Campaign(0, 0, 0, [], [], sentBefore);
    var i := 0;
    RunningStart(todo, now, force, dailyLimit, sentBefore, send);
    while i < |todo| && (force || c.sentToday < dailyLimit)
      invariant Running(c, todo, i, now, force, dailyLimit, sentBefore, send)
    {
      RunningStep(c, todo, i, now, force, dailyLimit, sentBefore, send);
      c := Record(c, ProcessSingle(todo[i], now, send(todo[i])));
      i := i + 1;
    }
    // The practices not reached before the daily limit are skipped.
    StopRunning(c, todo, i, now, force, dailyLimit, sentBefore, send);
    c := c.(skippedCount := |todo| - i);
  }

  /**
   * `process_campaign`: filters the practices due today and runs the
   * campaign over them; a due date that cannot be read fails the filter.
   */
  method ProcessCampaign(
    ps: seq<Practice>, now: int, force: bool, dailyLimit: int, sentBefore: int, maxEmails: int,
    send: Practice -> SendOutcome)
    returns (r: Result<Campaign, DateError>)
    ensures r.Failure? <==> FilterForCampaign(ps, DayOf(now), maxEmails).Failure?
    ensures r.Success? ==>
              var c := r.value;
              var todo := FilterForCampaign(ps, DayOf(now), maxEmails).value;
              Reports(c, todo, now, sentBefore, send)
              && (force ==> c.skippedCount == 0)
              && (c.skippedCount > 0 ==> !force && c.sentToday >= dailyLimit)
              && (!force && sentBefore <= dailyLimit ==> c.sentToday <= dailyLimit)
              && (!force && sentBefore >= dailyLimit ==> c.successCount == 0 && c.skippedCount == |todo|)
              && UnderLimit(c.results, force, dailyLimit, sentBefore)
  {
    var filtered := FilterForCampaign(ps, DayOf(now), maxEmails);
    if filtered.Failure? {
      return Failure(filtered.error);
    }
    var c := RunCampaign(filtered.value, now, force, dailyLimit, sentBefore, send);
    return Success(c);
  }
}
