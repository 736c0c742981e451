/**
 * The automation rule engine: a fixed table of six rules, a filter that
 * picks the rules an event triggers, a timing gate over the append-only
 * `automation_history`, an action dispatcher that records what it did, the
 * queue of pending actions and the immediate execution of urgent ones.
 *
 * The e-mail service and the sales notification are collaborators; what
 * they did is an `Outcome` supplied by the caller.
 */
module Automation {
  import opened Wrappers
  import opened Records
  import LeadScoring
  import Sorting
  import Folds

  // ---- the rule table ----

  /** The `condition` lambda of a rule. */
  datatype Condition = NotClicked | NotReplied | NotOpened | OpenedThreeTimes | Always | HotScore

  datatype Rule = Rule(
    name: string,
    trigger: string,
    condition: Condition,
    waitDays: int,
    action: string,
    template: Option<string>,
    priority: string)

  const Rules: seq<Rule> := [
    Rule("email_opened_no_click", "email_opened", NotClicked, 2, "send_follow_up", Some("interest_detected"), "medium"),
    Rule("email_clicked_no_reply", "email_clicked", NotReplied, 1, "send_follow_up", Some("high_interest"), "high"),
    Rule("no_response_after_send", "email_sent", NotOpened, 5, "send_follow_up", Some("gentle_reminder"), "low"),
    Rule("opened_multiple_times", "email_opened", OpenedThreeTimes, 0, "notify_sales", None, "urgent"),
    Rule("long_inactive", "time_based", Always, 14, "send_reengagement", Some("re_engagement"), "low"),
    Rule("hot_lead_no_contact", "score_based", HotScore, 3, "notify_sales", None, "urgent")
  ]

  predicate Holds(c: Condition, p: Practice) {
    match c
    case NotClicked => !p.workflow.emailClicked
    case NotReplied => !p.workflow.replied
    case NotOpened => !p.workflow.emailOpened
    case OpenedThreeTimes => p.workflow.openCount >= 3
    case Always => true
    case HotScore => StoredTotal(p) >= 75
  }

  /** A rule is looked at for its own event, and the two synthetic triggers for every event. */
  predicate Considered(r: Rule, event: string) {
    r.trigger == event || r.trigger == "time_based" || r.trigger == "score_based"
  }

  /** The last two rules are evaluated whatever the event; the first four only for their own. */
  lemma ConsideredRules(event: string, i: nat)
    requires i < |Rules|
    ensures Considered(Rules[i], event) <==> i >= 4 || Rules[i].trigger == event
  {
  }

  // ---- the timing gate ----

  /** The `reason` text that comes with the gate's decision. */
  datatype GateReason =
    | FirstExecution
    | DaysSinceEmail(days: int)
    | WaitingMore(days: int)
    | EmailDateUnknown
    | DaysSinceExecution(days: int)
    | InCooldown(remaining: int)
    | ExecutionDateUnknown

  datatype Gate = Gate(open: bool, reason: GateReason)

  /** Position of the first (oldest) history entry of `rule`. */
  function FirstRun(history: seq<AutomationEntry>, rule: string): (r: Option<nat>)
    ensures r.Some? ==> r.value < |history| && history[r.value].rule == rule
    ensures r.Some? ==> forall i | 0 <= i < r.value :: history[i].rule != rule
    ensures r.None? <==> forall i | 0 <= i < |history| :: history[i].rule != rule
  {
    if history == [] then None
    else if history[0].rule == rule then Some(0)
    else match FirstRun(history[1..], rule)
      case None => None
      case Some(j) => Some(j + 1)
  }

  /** `history[i]` is the entry the gate looks at for `rule`. */
  predicate IsFirstRun(history: seq<AutomationEntry>, rule: string, i: int) {
    0 <= i < |history| && history[i].rule == rule
    && forall j | 0 <= j < i :: history[j].rule != rule
  }

  /** `_should_execute_now`: whether `rule` may run at `now`, with its reason. */
  function ShouldExecuteNow(p: Practice, rule: string, waitDays: int, now: int): (g: Gate)
    ensures (forall i | 0 <= i < |p.workflow.automationHistory| :: p.workflow.automationHistory[i].rule != rule)
            ==> (g.open <==> (p.workflow.lastEmailDate.Some? && p.workflow.lastEmailDate.value.At?
                              ==> DaysSince(now, p.workflow.lastEmailDate.value.secs) >= waitDays))
    ensures forall i | IsFirstRun(p.workflow.automationHistory, rule, i) ::
              var e := p.workflow.automationHistory[i];
              g.open <==> (e.executedAt.Some? && e.executedAt.value.At?
                           ==> DaysSince(now, e.executedAt.value.secs) >= 2 * waitDays)
    ensures !g.open ==> (g.reason.WaitingMore? && g.reason.days > 0)
                        || (g.reason.InCooldown? && g.reason.remaining > 0)
  {
    var w := p.workflow;
    FirstRunUnique(w.automationHistory, rule);
    match FirstRun(w.automationHistory, rule)
    case None =>
      (match w.lastEmailDate
       case None => Gate(true, FirstExecution)
       case Some(Malformed) => Gate(true, EmailDateUnknown)
       case Some(At(t)) =>
         var days := DaysSince(now, t);
         if days >= waitDays then Gate(true, DaysSinceEmail(days)) else Gate(false, WaitingMore(waitDays - days)))
    case Some(i) =>
      (match w.automationHistory[i].executedAt
       case Some(At(t)) =>
         var days := DaysSince(now, t);
         var cooldown := waitDays * 2;
         if days >= cooldown then Gate(true, DaysSinceExecution(days)) else Gate(false, InCooldown(cooldown - days))
       case _ => Gate(true, ExecutionDateUnknown))
  }

  lemma FirstRunUnique(history: seq<AutomationEntry>, rule: string)
    ensures forall i | IsFirstRun(history, rule, i) :: FirstRun(history, rule) == Some(i)
  {
    forall i | IsFirstRun(history, rule, i)
      ensures FirstRun(history, rule) == Some(i)
    {
      FirstRunIs(history, rule, i);
    }
  }

  /** A gate that is open stays open as time passes, as long as the history does not change. */
  lemma GateStaysOpen(p: Practice, rule: string, waitDays: int, now1: int, now2: int)
    requires now1 <= now2
    requires ShouldExecuteNow(p, rule, waitDays, now1).open
    ensures ShouldExecuteNow(p, rule, waitDays, now2).open
  {
    var h := p.workflow.automationHistory;
    match FirstRun(h, rule)
    case None =>
      if p.workflow.lastEmailDate.Some? && p.workflow.lastEmailDate.value.At? {
        var t := p.workflow.lastEmailDate.value.secs;
        assert DaysSince(now1, t) <= DaysSince(now2, t);
      }
    case Some(i) =>
      assert IsFirstRun(h, rule, i);
      var e := h[i];
      if e.executedAt.Some? && e.executedAt.value.At? {
        var t := e.executedAt.value.secs;
        assert DaysSince(now1, t) <= DaysSince(now2, t);
      }
  }

  /**
   * Once a rule has run, later entries never move its cooldown reference:
   * the gate keeps measuring from the oldest entry of the rule.
   */
  lemma LaterRunsIgnored(p: Practice, rule: string, waitDays: int, now: int, later: seq<AutomationEntry>)
    requires exists i :: IsFirstRun(p.workflow.automationHistory, rule, i)
    ensures ShouldExecuteNow(
              p.(workflow := p.workflow.(automationHistory := p.workflow.automationHistory + later)),
              rule, waitDays, now)
            == ShouldExecuteNow(p, rule, waitDays, now)
  {
    var h := p.workflow.automationHistory;
    var i :| IsFirstRun(h, rule, i);
    assert IsFirstRun(h + later, rule, i);
    FirstRunIs(h, rule, i);
    FirstRunIs(h + later, rule, i);
  }

  /** The first entry of a rule is the one `FirstRun` finds. */
  lemma FirstRunIs(history: seq<AutomationEntry>, rule: string, i: int)
    requires IsFirstRun(history, rule, i)
    ensures FirstRun(history, rule) == Some(i)
  {
  }

  /**
   * The oldest entry decides: a rule that ran ten days ago and again one day
   * ago, with a two-day wait (four-day cooldown), is due again.
   */
  lemma OldestEntryDecides(p: Practice, rule: string)
    requires p.workflow.automationHistory == [
      AutomationEntry(rule, "send_follow_up", Some(At(0)), true, SalesNotified),
      AutomationEntry(rule, "send_follow_up", Some(At(9 * SecondsPerDay)), true, SalesNotified)]
    ensures ShouldExecuteNow(p, rule, 2, 10 * SecondsPerDay) == Gate(true, DaysSinceExecution(10))
  {
    assert FirstRun(p.workflow.automationHistory, rule) == Some(0);
  }

  // ---- check_triggers ----

  datatype Action = Action(
    rule: string,
    actionType: string,
    template: Option<string>,
    priority: string,
    scheduledFor: int,
    reason: GateReason,
    practiceId: Option<int>)

  predicate Fires(r: Rule, p: Practice, event: string, now: int) {
    Considered(r, event) && Holds(r.condition, p) && ShouldExecuteNow(p, r.name, r.waitDays, now).open
  }

  /** The action a rule emits: its own type, template and priority, scheduled now, for the practice's id. */
  function ActionFor(r: Rule, p: Practice, now: int): (a: Action)
    ensures a.rule == r.name && a.actionType == r.action && a.template == r.template
    ensures a.priority == r.priority && a.practiceId == p.nr && a.scheduledFor == now
    ensures a.reason == ShouldExecuteNow(p, r.name, r.waitDays, now).reason
  {
    Action(r.name, r.action, r.template, r.priority, now, ShouldExecuteNow(p, r.name, r.waitDays, now).reason, p.nr)
  }

  /** The actions of the rules `rs` that fire, in the order of `rs`. */
  function Fire(rs: seq<Rule>, p: Practice, event: string, now: int): (r: seq<Action>)
    ensures |r| <= |rs|
    ensures forall a | a in r :: exists x | x in rs :: Fires(x, p, event, now) && a == ActionFor(x, p, now)
  {
    if rs == [] then []
    else (if Fires(rs[0], p, event, now) then [ActionFor(rs[0], p, now)] else []) + Fire(rs[1..], p, event, now)
  }

  /** Every rule that fires contributes its action. */
  lemma {:induction false} FireComplete(rs: seq<Rule>, p: Practice, event: string, now: int, x: Rule)
    requires x in rs && Fires(x, p, event, now)
    ensures ActionFor(x, p, now) in Fire(rs, p, event, now)
    decreases |rs|
  {
    if rs[0] != x {
      FireComplete(rs[1..], p, event, now, x);
    }
  }

  /** Actions come out in table order: an earlier part of the table contributes earlier actions. */
  lemma {:induction false} FireConcat(a: seq<Rule>, b: seq<Rule>, p: Practice, event: string, now: int)
    ensures Fire(a + b, p, event, now) == Fire(a, p, event, now) + Fire(b, p, event, now)
    decreases |a|
  {
    if a == [] {
      assert a + b == b;
    } else {
      var h := if Fires(a[0], p, event, now) then [ActionFor(a[0], p, now)] else [];
      var ab := a + b;
      assert ab[0] == a[0] && ab[1..] == a[1..] + b;
      assert Fire(ab, p, event, now) == h + Fire(a[1..] + b, p, event, now);
      FireConcat(a[1..], b, p, event, now);
      assert Fire(a, p, event, now) == h + Fire(a[1..], p, event, now);
    }
  }

  /** `check_triggers`. */
  function CheckTriggers(p: Practice, event: string, now: int): (r: seq<Action>)
    ensures |r| <= |Rules|
    ensures forall a | a in r :: a.practiceId == p.nr
  {
    Fire(Rules, p, event, now)
  }

  /** The rules of the table that fire are exactly the ones whose action is emitted. */
  lemma CheckTriggersExact(p: Practice, event: string, now: int, i: nat)
    requires i < |Rules|
    ensures ActionFor(Rules[i], p, now) in CheckTriggers(p, event, now) <==> Fires(Rules[i], p, event, now)
  {
    if Fires(Rules[i], p, event, now) {
      FireComplete(Rules, p, event, now, Rules[i]);
    } else {
      RuleNamesDistinct();
    }
  }

  /** No two rules of the table share a name. */
  lemma RuleNamesDistinct()
    ensures forall x, y | x in Rules && y in Rules && x.name == y.name :: x == y
  {
    forall x, y | x in Rules && y in Rules && x.name == y.name
      ensures x == y
    {
      var i :| 0 <= i < |Rules| && Rules[i] == x;
      var j :| 0 <= j < |Rules| && Rules[j] == y;
      NameTells(i, j);
    }
  }

  /** The first and seventh letters of a rule's name tell the rules apart. */
  lemma NameTells(i: nat, j: nat)
    requires i < |Rules| && j < |Rules| && Rules[i].name == Rules[j].name
    ensures i == j
  {
    var first := ['e', 'e', 'n', 'o', 'l', 'h'];
    var seventh := ['o', 'c', 'p', '_', 'n', 'a'];
    assert forall k | 0 <= k < |Rules| :: |Rules[k].name| > 6
             && Rules[k].name[0] == first[k] && Rules[k].name[6] == seventh[k];
    assert Rules[i].name[0] == Rules[j].name[0] && Rules[i].name[6] == Rules[j].name[6];
  }

  /** Only the two synthetic rules answer the synthetic events, and both answer both. */
  lemma SyntheticEventsAgree(p: Practice, now: int)
    ensures CheckTriggers(p, "time_based", now) == CheckTriggers(p, "score_based", now)
    ensures forall a | a in CheckTriggers(p, "time_based", now) ::
              a.rule == "long_inactive" || a.rule == "hot_lead_no_contact"
  {
    var first, last := Rules[..4], Rules[4..];
    assert Rules == first + last;
    FireConcat(first, last, p, "time_based", now);
    FireConcat(first, last, p, "score_based", now);
    NoneConsidered(first, p, "time_based", now);
    NoneConsidered(first, p, "score_based", now);
    assert last[1..][1..] == [];
  }

  lemma {:induction false} NoneConsidered(rs: seq<Rule>, p: Practice, event: string, now: int)
    requires forall i | 0 <= i < |rs| :: !Considered(rs[i], event)
    ensures Fire(rs, p, event, now) == []
    decreases |rs|
  {
    if rs != [] {
      NoneConsidered(rs[1..], p, event, now);
    }
  }

  // ---- execute_action ----

  /** What a collaborator did: returned a flag, raised inside the handler, or raised out of it. */
  datatype Outcome = Returned(ok: bool) | Raised | Escaped

  datatype ExecResult = ExecResult(success: bool, executedAt: int, note: Note)

  /** What a handler returns: its success flag and message, and the practice as it left it. */
  datatype Handled = Handled(success: bool, note: Note, practice: Practice)

  predicate IsFollowUp(actionType: string) {
    actionType == "send_follow_up" || actionType == "send_reengagement"
  }

  predicate IsKnownAction(actionType: string) {
    IsFollowUp(actionType) || actionType == "notify_sales" || actionType == "update_score"
  }

  /** `_send_follow_up_email` (also `_send_reengagement_email`), given what the send did. */
  function SendFollowUp(p: Practice, a: Action, now: int, outcome: Outcome): (h: Handled)
    requires !outcome.Escaped?
    ensures h.success <==> outcome == Returned(true)
    ensures h.success ==> h.practice.workflow.automatedEmailsSent == p.workflow.automatedEmailsSent + 1
                          && h.practice.workflow.lastAutomatedEmail == Some(At(now))
    ensures h.success ==>
              h.practice == p.(workflow := p.workflow.(lastAutomatedEmail := Some(At(now)),
                                                       automatedEmailsSent := p.workflow.automatedEmailsSent + 1))
    ensures !h.success ==> h.practice == p
    ensures h.practice.workflow.automationHistory == p.workflow.automationHistory
    ensures h.note == if h.success then SentEmail(a.template, p.email)
                      else if outcome.Raised? then SendError else SendFailed
  {
    match outcome
    case Returned(true) =>
      var w := p.workflow.(lastAutomatedEmail := Some(At(now)),
                           automatedEmailsSent := p.workflow.automatedEmailsSent + 1);
      Handled(true, SentEmail(a.template, p.email), p.(workflow := w))
    case Returned(false) => Handled(false, SendFailed, p)
    case Raised => Handled(false, SendError, p)
  }

  /** `_notify_sales_team`: the notifier's own answer is ignored. */
  function NotifySales(p: Practice, outcome: Outcome): (h: Handled)
    requires !outcome.Escaped?
    ensures h.success <==> !outcome.Raised?
    ensures h.practice == p
    ensures h.note == if h.success then SalesNotified else NotifyError
  {
    if outcome.Raised? then Handled(false, NotifyError, p) else Handled(true, SalesNotified, p)
  }

  /** `_update_lead_score`. */
  function UpdateScore(p: Practice, now: int): (h: Handled)
    ensures h.success && h.practice.score == Some(LeadScoring.CalculateScore(p, now))
    ensures h.practice.workflow == p.workflow
    ensures h.practice == p.(score := h.practice.score)
    ensures h.note == ScoreUpdated(LeadScoring.CalculateScore(p, now).total)
  {
    var s := LeadScoring.CalculateScore(p, now);
    Handled(true, ScoreUpdated(s.total), p.(score := Some(s)))
  }

  /** An exception escaping a handler: only the follow-up and notify handlers import collaborators. */
  predicate EscapesHandler(a: Action, outcome: Outcome) {
    outcome.Escaped? && (IsFollowUp(a.actionType) || a.actionType == "notify_sales")
  }

  function EntryFor(a: Action, now: int, h: Handled): AutomationEntry {
    AutomationEntry(a.rule, a.actionType, Some(At(now)), h.success, h.note)
  }

  /** The handler's answer as the action's result, with the entry recording it appended to the history. */
  function Recorded(a: Action, now: int, h: Handled): (r: (ExecResult, Practice))
    ensures r.0 == ExecResult(h.success, now, h.note)
    ensures r.1 == h.practice.(workflow := h.practice.workflow.(automationHistory :=
                     h.practice.workflow.automationHistory + [EntryFor(a, now, h)]))
  {
    var w := h.practice.workflow;
    (ExecResult(h.success, now, h.note), h.practice.(workflow := w.(automationHistory := w.automationHistory + [EntryFor(a, now, h)])))
  }

  /**
   * `execute_action`: dispatches on the action type and appends one entry to
   * the automation history, unless an exception escaped the handler.
   */
  function ExecuteAction(a: Action, p: Practice, now: int, outcome: Outcome): (r: (ExecResult, Practice))
    ensures EscapesHandler(a, outcome) ==> r.1 == p && !r.0.success && r.0.note == ActionError
    ensures !EscapesHandler(a, outcome) ==>
              r.1.workflow.automationHistory
              == p.workflow.automationHistory
                 + [AutomationEntry(a.rule, a.actionType, Some(At(now)), r.0.success, r.0.note)]
    ensures !IsKnownAction(a.actionType) ==>
              !r.0.success && r.0.note == UnknownAction(a.actionType)
              && r.1 == p.(workflow := p.workflow.(automationHistory := r.1.workflow.automationHistory))
    ensures IsFollowUp(a.actionType) && outcome == Returned(true) ==>
              r.0.success && r.1.workflow.automatedEmailsSent == p.workflow.automatedEmailsSent + 1
              && r.1.workflow.lastAutomatedEmail == Some(At(now))
              && r.0.note == SentEmail(a.template, p.email)
              && r.1 == p.(workflow := p.workflow.(lastAutomatedEmail := Some(At(now)),
                                                   automatedEmailsSent := p.workflow.automatedEmailsSent + 1,
                                                   automationHistory := r.1.workflow.automationHistory))
    ensures IsFollowUp(a.actionType) && !outcome.Escaped? && outcome != Returned(true) ==>
              !r.0.success && r.0.note == (if outcome.Raised? then SendError else SendFailed)
              && r.1 == p.(workflow := p.workflow.(automationHistory := r.1.workflow.automationHistory))
    ensures a.actionType == "notify_sales" && !outcome.Escaped? ==>
              (r.0.success <==> !outcome.Raised?)
              && r.0.note == (if outcome.Raised? then NotifyError else SalesNotified)
              && r.1 == p.(workflow := p.workflow.(automationHistory := r.1.workflow.automationHistory))
    ensures a.actionType == "update_score" ==>
              r.0.success && r.1.score == Some(LeadScoring.CalculateScore(p, now))
              && r.0.note == ScoreUpdated(LeadScoring.CalculateScore(p, now).total)
              && r.1 == p.(score := r.1.score,
                           workflow := p.workflow.(automationHistory := r.1.workflow.automationHistory))
    ensures r.0.executedAt == now && r.1.nr == p.nr
  {
    if EscapesHandler(a, outcome) then (ExecResult(false, now, ActionError), p)
    else if IsFollowUp(a.actionType) then Recorded(a, now, SendFollowUp(p, a, now, outcome))
    else if a.actionType == "notify_sales" then Recorded(a, now, NotifySales(p, outcome))
    else if a.actionType == "update_score" then Recorded(a, now, UpdateScore(p, now))
    else Recorded(a, now, Handled(false, UnknownAction(a.actionType), p))
  }

  /** Executing an action never rewrites the entries already in the history. */
  lemma ExecuteKeepsHistory(a: Action, p: Practice, now: int, outcome: Outcome)
    ensures var h := ExecuteAction(a, p, now, outcome).1.workflow.automationHistory;
            |p.workflow.automationHistory| <= |h| <= |p.workflow.automationHistory| + 1
            && h[..|p.workflow.automationHistory|] == p.workflow.automationHistory
  {
  }

  // ---- process_event ----

  predicate IsUrgent(a: Action) {
    a.priority == "urgent"
  }

  /** The urgent actions of the list, in order. */
  function UrgentOnly(actions: seq<Action>): (r: seq<Action>)
    ensures |r| == Folds.CountOf(actions, IsUrgent)
    ensures forall a | a in r :: a in actions && a.priority == "urgent"
    ensures forall a | a in actions && a.priority == "urgent" :: a in r
  {
    if actions == [] then []
    else
      assert actions == [actions[0]] + actions[1..];
      Folds.CountOfCons(actions[0], actions[1..], IsUrgent);
      (if actions[0].priority == "urgent" then [actions[0]] else []) + UrgentOnly(actions[1..])
  }

  /** The selection keeps list order: selecting from a concatenation concatenates the selections. */
  lemma {:induction false} UrgentOnlyConcat(a: seq<Action>, b: seq<Action>)
    ensures UrgentOnly(a + b) == UrgentOnly(a) + UrgentOnly(b)
    decreases |a|
  {
    if a == [] {
      assert a + b == b;
    } else {
      assert (a + b)[0] == a[0] && (a + b)[1..] == a[1..] + b;
      UrgentOnlyConcat(a[1..], b);
    }
  }

  /** Runs one action on a practice and returns what `execute_action` returns and leaves. */
  type Executor = (Action, Practice) -> (ExecResult, Practice)

  /** `execute_action` under a fixed clock and fixed collaborator outcomes. */
  function Step(now: int, outcome: Action -> Outcome): Executor {
    (a: Action, q: Practice) => ExecuteAction(a, q, now, outcome(a))
  }

  /** `exec` appends to the history exactly the entry recording `a` and its own result. */
  ghost predicate Appends(exec: Executor, a: Action, now: int) {
    forall q: Practice {:trigger exec(a, q)} ::
      exec(a, q).1.workflow.automationHistory
      == q.workflow.automationHistory
         + [AutomationEntry(a.rule, a.actionType, Some(At(now)), exec(a, q).0.success, exec(a, q).0.note)]
  }

  ghost predicate KeepsNr(exec: Executor) {
    forall a: Action, q: Practice {:trigger exec(a, q)} :: exec(a, q).1.nr == q.nr
  }

  /** Without an escaping exception, `execute_action` records the action it ran. */
  lemma {:induction false} StepAppends(a: Action, now: int, outcome: Action -> Outcome)
    requires !EscapesHandler(a, outcome(a))
    ensures Appends(Step(now, outcome), a, now)
  {
    forall q: Practice
      ensures Step(now, outcome)(a, q).1.workflow.automationHistory
              == q.workflow.automationHistory
                 + [AutomationEntry(a.rule, a.actionType, Some(At(now)),
                                    Step(now, outcome)(a, q).0.success, Step(now, outcome)(a, q).0.note)]
    {
      var r := ExecuteAction(a, q, now, outcome(a));
      assert Step(now, outcome)(a, q) == r;
    }
  }

  lemma {:induction false} StepKeepsNr(now: int, outcome: Action -> Outcome)
    ensures KeepsNr(Step(now, outcome))
  {
    forall a: Action, q: Practice
      ensures Step(now, outcome)(a, q).1.nr == q.nr
    {
      assert Step(now, outcome)(a, q) == ExecuteAction(a, q, now, outcome(a));
    }
  }

  /** Executes the urgent actions in order, each on the practice the previous one left. */
  function RunUrgent(actions: seq<Action>, p: Practice, exec: Executor): (r: (seq<ExecResult>, Practice))
    ensures |r.0| == |UrgentOnly(actions)|
  {
    if actions == [] then ([], p)
    else if actions[0].priority == "urgent" then
      var first := exec(actions[0], p);
      var rest := RunUrgent(actions[1..], first.1, exec);
      ([first.0] + rest.0, rest.1)
    else RunUrgent(actions[1..], p, exec)
  }

  /**
   * Reference for a run of actions: the practice after executing the first
   * `k` actions of `us` one after the other, each on the practice the
   * previous one left.
   */
  function After(us: seq<Action>, k: nat, p: Practice, exec: Executor): Practice
    requires k <= |us|
    decreases k
  {
    if k == 0 then p else exec(us[k - 1], After(us, k - 1, p, exec)).1
  }

  /** What the `k`-th action of `us` returns when run on the practice the first `k` left. */
  function ResultAt(us: seq<Action>, k: nat, p: Practice, exec: Executor): ExecResult
    requires k < |us|
  {
    exec(us[k], After(us, k, p, exec)).0
  }

  lemma {:induction false} AfterShift(a: Action, us: seq<Action>, k: nat, p: Practice, exec: Executor)
    requires k <= |us|
    ensures After([a] + us, k + 1, p, exec) == After(us, k, exec(a, p).1, exec)
    decreases k
  {
    var au := [a] + us;
    assert au[0] == a;
    if k > 0 {
      assert au[k] == us[k - 1];
      AfterShift(a, us, k - 1, p, exec);
    }
  }

  lemma {:induction false} ResultAtShift(a: Action, us: seq<Action>, k: nat, p: Practice, exec: Executor)
    requires 0 < k <= |us|
    ensures ResultAt([a] + us, k, p, exec) == ResultAt(us, k - 1, exec(a, p).1, exec)
  {
    AfterShift(a, us, k - 1, p, exec);
    assert ([a] + us)[k] == us[k - 1];
  }

  /** A non-urgent head action is skipped. */
  lemma {:induction false} RunUrgentSkip(actions: seq<Action>, p: Practice, exec: Executor)
    requires actions != [] && actions[0].priority != "urgent"
    ensures UrgentOnly(actions) == UrgentOnly(actions[1..])
    ensures RunUrgent(actions, p, exec) == RunUrgent(actions[1..], p, exec)
  {
  }

  /** An urgent head action runs first, and the rest runs on the practice it left. */
  lemma {:induction false} RunUrgentCons(actions: seq<Action>, p: Practice, exec: Executor)
    requires actions != [] && actions[0].priority == "urgent"
    ensures UrgentOnly(actions) == [actions[0]] + UrgentOnly(actions[1..])
    ensures var rest := RunUrgent(actions[1..], exec(actions[0], p).1, exec);
            RunUrgent(actions, p, exec) == ([exec(actions[0], p).0] + rest.0, rest.1)
  {
  }

  /** Results of the rest of a run, shifted behind the head action's result. */
  lemma {:induction false} ResultsShift(a: Action, us: seq<Action>, p: Practice, exec: Executor, rs: seq<ExecResult>)
    requires |rs| == |us|
    requires forall k | 0 <= k < |us| :: rs[k] == ResultAt(us, k, exec(a, p).1, exec)
    ensures forall k | 0 <= k < |us| + 1 :: ([exec(a, p).0] + rs)[k] == ResultAt([a] + us, k, p, exec)
  {
    forall k | 0 <= k < |us| + 1
      ensures ([exec(a, p).0] + rs)[k] == ResultAt([a] + us, k, p, exec)
    {
      if k > 0 {
        ResultAtShift(a, us, k, p, exec);
      }
    }
  }

  /**
   * `RunUrgent` executes the urgent actions one after the other: its `k`-th
   * result is the `k`-th urgent action run on the practice the earlier ones
   * left, and the practice it returns is the one all of them left.
   */
  lemma {:induction false} RunUrgentSteps(actions: seq<Action>, p: Practice, exec: Executor)
    ensures var u := UrgentOnly(actions);
            var r := RunUrgent(actions, p, exec);
            (forall k | 0 <= k < |u| :: r.0[k] == ResultAt(u, k, p, exec))
            && r.1 == After(u, |u|, p, exec)
    decreases |actions|
  {
    if actions != [] {
      var a := actions[0];
      var u' := UrgentOnly(actions[1..]);
      if a.priority == "urgent" {
        var q := exec(a, p).1;
        RunUrgentSteps(actions[1..], q, exec);
        RunUrgentCons(actions, p, exec);
        ResultsShift(a, u', p, exec, RunUrgent(actions[1..], q, exec).0);
        AfterShift(a, u', |u'|, p, exec);
      } else {
        RunUrgentSteps(actions[1..], p, exec);
        RunUrgentSkip(actions, p, exec);
      }
    }
  }

  /** The history entry recording the `i`-th action of `us`. */
  function RecordAt(us: seq<Action>, i: nat, p: Practice, now: int, exec: Executor): AutomationEntry
    requires i < |us|
  {
    var res := ResultAt(us, i, p, exec);
    AutomationEntry(us[i].rule, us[i].actionType, Some(At(now)), res.success, res.note)
  }

  /**
   * When every action appends its own record, running the first `k` actions
   * appends exactly `k` history entries, the `i`-th recording the `i`-th
   * action with the success flag and message its execution returned.
   */
  lemma {:induction false} AfterRecords(us: seq<Action>, k: nat, p: Practice, now: int, exec: Executor)
    requires k <= |us|
    requires forall i | 0 <= i < |us| :: Appends(exec, us[i], now)
    ensures var h0 := p.workflow.automationHistory;
            var h := After(us, k, p, exec).workflow.automationHistory;
            |h| == |h0| + k && h[..|h0|] == h0
            && forall i | 0 <= i < k :: h[|h0| + i] == RecordAt(us, i, p, now, exec)
    decreases k
  {
    if k > 0 {
      AfterRecords(us, k - 1, p, now, exec);
      var h0 := p.workflow.automationHistory;
      var q := After(us, k - 1, p, exec);
      var hq := q.workflow.automationHistory;
      var h := After(us, k, p, exec).workflow.automationHistory;
      assert Appends(exec, us[k - 1], now);
      assert h == hq + [RecordAt(us, k - 1, p, now, exec)];
      assert h[..|h0|] == hq[..|h0|];
      forall i | 0 <= i < k
        ensures h[|h0| + i] == RecordAt(us, i, p, now, exec)
      {
        if i < k - 1 {
          assert h[|h0| + i] == hq[|h0| + i];
        }
      }
    }
  }

  lemma {:induction false} AfterKeepsNr(us: seq<Action>, k: nat, p: Practice, exec: Executor)
    requires k <= |us| && KeepsNr(exec)
    ensures After(us, k, p, exec).nr == p.nr
    decreases k
  {
    if k > 0 {
      AfterKeepsNr(us, k - 1, p, exec);
    }
  }

  /** The run facts `process_event` relies on, for any list of actions and any executor. */
  lemma {:induction false} RunUrgentFacts(actions: seq<Action>, p: Practice, now: int, exec: Executor)
    requires KeepsNr(exec)
    ensures var u := UrgentOnly(actions);
            var r := RunUrgent(actions, p, exec);
            (forall k | 0 <= k < |u| :: r.0[k] == ResultAt(u, k, p, exec))
            && r.1 == After(u, |u|, p, exec)
            && r.1.nr == p.nr
    ensures (forall i | 0 <= i < |UrgentOnly(actions)| :: Appends(exec, UrgentOnly(actions)[i], now)) ==>
              var u := UrgentOnly(actions);
              var r := RunUrgent(actions, p, exec);
              var h0, h := p.workflow.automationHistory, r.1.workflow.automationHistory;
              |h| == |h0| + |r.0| && h[..|h0|] == h0
              && forall k | 0 <= k < |r.0| ::
                   h[|h0| + k] == AutomationEntry(u[k].rule, u[k].actionType, Some(At(now)),
                                                  r.0[k].success, r.0[k].note)
  {
    var u := UrgentOnly(actions);
    var r := RunUrgent(actions, p, exec);
    RunUrgentSteps(actions, p, exec);
    AfterKeepsNr(u, |u|, p, exec);
    if forall i | 0 <= i < |u| :: Appends(exec, u[i], now) {
      AfterRecords(u, |u|, p, now, exec);
      RecordsOfRun(u, r, p, now, exec);
    }
  }

  /** A run that matches the reference records each of its own results, in order. */
  lemma {:induction false} RecordsOfRun(u: seq<Action>, r: (seq<ExecResult>, Practice), p: Practice, now: int, exec: Executor)
    requires |r.0| == |u|
    requires forall k | 0 <= k < |u| :: r.0[k] == ResultAt(u, k, p, exec)
    requires r.1 == After(u, |u|, p, exec)
    requires var h0, h := p.workflow.automationHistory, After(u, |u|, p, exec).workflow.automationHistory;
             |h| == |h0| + |u| && h[..|h0|] == h0
             && forall i | 0 <= i < |u| :: h[|h0| + i] == RecordAt(u, i, p, now, exec)
    ensures var h0, h := p.workflow.automationHistory, r.1.workflow.automationHistory;
            |h| == |h0| + |r.0| && h[..|h0|] == h0
            && forall k | 0 <= k < |r.0| ::
                 h[|h0| + k] == AutomationEntry(u[k].rule, u[k].actionType, Some(At(now)),
                                                r.0[k].success, r.0[k].note)
  {
    var h0, h := p.workflow.automationHistory, r.1.workflow.automationHistory;
    forall k | 0 <= k < |r.0|
      ensures h[|h0| + k] == AutomationEntry(u[k].rule, u[k].actionType, Some(At(now)),
                                             r.0[k].success, r.0[k].note)
    {
      assert h[|h0| + k] == RecordAt(u, k, p, now, exec);
      assert r.0[k] == ResultAt(u, k, p, exec);
    }
  }

  datatype EventResult = EventResult(
    triggered: nat,
    actions: seq<Action>,
    executed: seq<ExecResult>,
    practice: Practice)

  /**
   * `process_event`: every triggered action is listed; only the urgent ones
   * are executed, in order, each on the practice the previous one left, and
   * each execution is recorded in the returned practice's history.
   */
  function ProcessEvent(p: Practice, event: string, now: int, outcome: Action -> Outcome): (r: EventResult)
    ensures r.triggered == |r.actions| && r.actions == CheckTriggers(p, event, now)
    ensures |r.executed| == |UrgentOnly(r.actions)|
    ensures var u := UrgentOnly(r.actions);
            (forall k | 0 <= k < |u| :: r.executed[k] == ResultAt(u, k, p, Step(now, outcome)))
            && r.practice == After(u, |u|, p, Step(now, outcome))
    ensures (forall a | a in r.actions :: !EscapesHandler(a, outcome(a))) ==>
              var u := UrgentOnly(r.actions);
              var h0, h := p.workflow.automationHistory, r.practice.workflow.automationHistory;
              |h| == |h0| + |r.executed| && h[..|h0|] == h0
              && forall k | 0 <= k < |r.executed| ::
                   h[|h0| + k] == AutomationEntry(u[k].rule, u[k].actionType, Some(At(now)),
                                                  r.executed[k].success, r.executed[k].note)
    ensures r.practice.nr == p.nr
  {
    var actions := CheckTriggers(p, event, now);
    var run := RunUrgent(actions, p, Step(now, outcome));
    StepKeepsNr(now, outcome);
    RunUrgentFacts(actions, p, now, Step(now, outcome));
    var r := EventResult(|actions|, actions, run.0, run.1);
    if forall a | a in actions :: !EscapesHandler(a, outcome(a)) then
      RunAppends(actions, now, outcome);
      r
    else r
  }

  /** Without an escaping exception, every urgent action records itself. */
  lemma {:induction false} RunAppends(actions: seq<Action>, now: int, outcome: Action -> Outcome)
    requires forall a | a in actions :: !EscapesHandler(a, outcome(a))
    ensures forall i | 0 <= i < |UrgentOnly(actions)| :: Appends(Step(now, outcome), UrgentOnly(actions)[i], now)
  {
    var u := UrgentOnly(actions);
    forall i | 0 <= i < |u|
      ensures Appends(Step(now, outcome), u[i], now)
    {
      assert u[i] in u;
      StepAppends(u[i], now, outcome);
    }
  }

  /** A non-urgent action is listed but never executed: with no urgent action, nothing is recorded. */
  lemma {:induction false} NothingUrgentNothingRun(actions: seq<Action>, p: Practice, exec: Executor)
    requires forall i | 0 <= i < |actions| :: actions[i].priority != "urgent"
    ensures RunUrgent(actions, p, exec) == ([], p)
    decreases |actions|
  {
    if actions != [] {
      NothingUrgentNothingRun(actions[1..], p, exec);
    }
  }

  // ---- get_pending_actions ----

  /** The position of a priority in the queue; unknown priorities go last. */
  function Rank(priority: string): (k: int)
    ensures 0 <= k <= 99
    ensures k <= 3 <==> priority in ["urgent", "high", "medium", "low"]
  {
    if priority == "urgent" then 0
    else if priority == "high" then 1
    else if priority == "medium" then 2
    else if priority == "low" then 3
    else 99
  }

  /** Sort key: the stable descending sort on the negated rank is the ascending sort on the rank. */
  function Urgency(a: Action): int {
    -Rank(a.priority)
  }

  /** Both synthetic checks for every practice, in practice order. */
  function CollectPending(ps: seq<Practice>, now: int): (r: seq<Action>)
    ensures |r| <= 2 * |Rules| * |ps|
  {
    if ps == [] then []
    else CheckTriggers(ps[0], "time_based", now) + CheckTriggers(ps[0], "score_based", now)
         + CollectPending(ps[1..], now)
  }

  /** `get_pending_actions`. */
  function PendingActions(ps: seq<Practice>, now: int): (r: seq<Action>)
    ensures multiset(r) == multiset(CollectPending(ps, now))
    ensures forall i, j | 0 <= i < j < |r| :: Rank(r[i].priority) <= Rank(r[j].priority)
  {
    var r := Sorting.SortDesc(CollectPending(ps, now), Urgency);
    Sorting.SortDescSorted(CollectPending(ps, now), Urgency);
    assert forall i, j | 0 <= i < j < |r| :: Urgency(r[i]) >= Urgency(r[j]);
    r
  }

  /** Actions of equal priority keep the order in which they were collected. */
  lemma PendingStable(ps: seq<Practice>, now: int, k: int)
    ensures Sorting.WithKey(PendingActions(ps, now), Urgency, k)
            == Sorting.WithKey(CollectPending(ps, now), Urgency, k)
  {
    Sorting.SortDescStable(CollectPending(ps, now), Urgency, k);
  }

  /** Each qualifying synthetic rule is queued twice for the same practice. */
  lemma PendingListsSyntheticTwice(p: Practice, now: int)
    ensures CollectPending([p], now) == CheckTriggers(p, "time_based", now) + CheckTriggers(p, "time_based", now)
    ensures forall a | a in CollectPending([p], now) :: a.rule == "long_inactive" || a.rule == "hot_lead_no_contact"
  {
    SyntheticEventsAgree(p, now);
    assert [p][1..] == [];
    var x := CheckTriggers(p, "time_based", now);
    assert CollectPending([p], now) == x + x + [];
  }
}
