/**
 * The practice record that every service of the CRM reads and updates,
 * as an immutable value. A Python dictionary key that may be missing is an
 * `Option`; a key whose absence the code treats like a falsy value (an
 * empty string, `False`, `0`, an empty list) is stored as that value.
 *
 * Time is a number of seconds on one fixed clock, supplied by the caller
 * as `now`; a stored ISO timestamp is either a readable instant or text
 * that `datetime.fromisoformat` rejects.
 */
module Records {
  import opened Wrappers

  const SecondsPerDay := 86400

  /** A stored date: an instant in seconds, or a string that does not parse. */
  datatype Stamp = At(secs: int) | Malformed

  /**
   * Whole days from `t` to `now`, as `timedelta.days` computes them:
   * rounded towards minus infinity, so a date in the future gives a
   * negative number.
   */
  function DaysSince(now: int, t: int): (d: int)
    ensures d * SecondsPerDay <= now - t < (d + 1) * SecondsPerDay
  {
    (now - t) / SecondsPerDay
  }

  /** The calendar day (days since the epoch) that contains instant `t`. */
  function DayOf(t: int): (d: int)
    ensures d * SecondsPerDay <= t < (d + 1) * SecondsPerDay
  {
    t / SecondsPerDay
  }

  /**
   * The message of an automation result. Every variant but `ActionError`
   * can appear in the audit trail; `ActionError` is only reported back.
   */
  datatype Note =
    | SentEmail(template: Option<string>, to: string)
    | SendFailed
    | SendError
    | SalesNotified
    | NotifyError
    | ScoreUpdated(total: int)
    | UnknownAction(actionType: string)
    | ActionError

  /** One `workflow.automation_history` entry. */
  datatype AutomationEntry = AutomationEntry(
    rule: string,
    action: string,
    executedAt: Option<Stamp>,
    success: bool,
    note: Note)

  /** The `workflow` sub-dictionary; a missing workflow is `EmptyWorkflow`. */
  datatype Workflow = Workflow(
    emailOpened: bool,
    emailClicked: bool,
    replied: bool,
    phoneContacted: bool,
    meetingBooked: bool,
    // the separate `opened` and `clicked` keys that analytics reads
    hasOpened: bool,
    hasClicked: bool,
    unsubscribed: bool,
    bounced: bool,
    emailsSent: int,
    openCount: int,
    lastEmailDate: Option<Stamp>,
    lastReplyDate: Option<Stamp>,
    nextFollowupDate: Option<Stamp>,
    lastContact: Option<Stamp>,
    lastEmailTemplate: Option<string>,
    automationHistory: seq<AutomationEntry>,
    automatedEmailsSent: int,
    lastAutomatedEmail: Option<Stamp>,
    status: Option<string>)

  const EmptyWorkflow := Workflow(
    false, false, false, false, false, false, false, false, false,
    0, 0, None, None, None, None, None, [], 0, None, None)

  /** A move recorded in `pipeline.history`. */
  datatype StageMove = StageMove(from: string, to: string, movedAt: int, reason: Option<string>)

  /** The `pipeline` sub-dictionary. */
  datatype PipelineData = PipelineData(
    currentStage: Option<string>,
    history: seq<StageMove>,
    dealValue: int,
    probability: int,
    stageEnteredAt: Option<Stamp>)

  datatype Category = Hot | Warm | Cold | Frozen

  /** The dictionary `calculate_score` returns, without its wall-clock stamp. */
  datatype ScoreResult = ScoreResult(
    total: int,
    category: Category,
    engagement: int,
    demographic: int,
    recencyTenths: int,
    nextAction: string,
    priority: int)

  /** The `artsen` value: a list of doctors, or a value of some other type. */
  datatype Doctors = DoctorList(count: nat) | NotAList

  /** The `attention_reason` a scan attaches to a practice. */
  datatype AttentionReason = HighScoreStale(score: int, days: int) | OpenedNoFollowUp

  datatype Practice = Practice(
    nr: Option<int>,
    naam: Option<string>,
    gem: Option<string>,
    email: string,
    tel: string,
    website: string,
    artsen: Option<Doctors>,
    artsenNamen: Option<string>,
    status: Option<string>,
    workflow: Workflow,
    pipeline: Option<PipelineData>,
    score: Option<ScoreResult>,
    attention: Option<AttentionReason>,
    daysInStage: Option<int>)

  /** A practice with only its id set. */
  function NewPractice(nr: Option<int>): (p: Practice)
    ensures p.nr == nr && p.workflow == EmptyWorkflow && p.pipeline == None
  {
    Practice(nr, None, None, "", "", "", None, None, None, EmptyWorkflow, None, None, None, None)
  }

  /** `practice.get('score', {}).get('total_score', 0)`. */
  function StoredTotal(p: Practice): int {
    if p.score.Some? then p.score.value.total else 0
  }
}
