# CRM sales core in Dafny

A model of the in-process sales logic of a CRM for general practices, with proofs about it. The CRM is a Python/Flask application; the model covers the parts that are deterministic once the clock is an input:

- lead scoring;
- the deal pipeline;
- the automation rule engine;
- e-mail template sequencing and campaign filtering;
- SMS and WhatsApp number handling, segment counting and bulk-send accounting;
- inbox bookkeeping;
- the message serialiser;
- the JSON practice store;
- campaign analytics;
- the e-mail personalisation score;
- keyword sentiment of replies.

Everything is immutable data and pure functions. A few loops are methods with invariants. A practice is one `Practice` record. It has a field for every key the services read. A key whose absence matters is an `Option`; a key whose absence the code treats like a falsy value is stored as that value.

Time is an integer number of seconds passed in as `now`. A stored date is either a readable instant (`At`) or text that `datetime.fromisoformat` rejects (`Malformed`). Day counts use floor division, as `timedelta.days` does, so a future date gives a negative count. Rates and multipliers are exact: recency multipliers in tenths, rates as `real`.

| file | module | models |
|---|---|---|
| wrappers.dfy | Wrappers | `Option` and `Result` |
| text.dfy | Text | the string operations the code uses: `replace`, `in`, `lower`, `split`, `strip`, digit filtering, integer rendering |
| folds.dfy | Folds | sums and counts over lists, with their step lemmas |
| sorting.dfy | Sorting | the stable sort that `list.sort(key=..., reverse=True)` performs |
| records.dfy | Records | the practice record, its workflow and pipeline parts, day arithmetic |
| lead_scoring.dfy | LeadScoring | backend/services/lead_scoring.py |
| pipeline.dfy | Pipeline | backend/services/pipeline.py |
| automation.dfy | Automation | backend/services/automation_engine.py |
| email_templates.dfy | EmailTemplates | modules/email_templates.py |
| email_automation.dfy | EmailAutomation | modules/email_automation.py |
| messaging.dfy | Messaging | the personalisation and bulk loop shared by the SMS and WhatsApp services |
| sms.dfy | Sms | backend/services/sms_service.py and `normalize_phone_number` and the reply matching of backend/api/sms_api.py |
| whatsapp.dfy | WhatsApp | backend/services/whatsapp_service.py |
| message_model.dfy | MessageModel | backend/models/message.py |
| inbox.dfy | Inbox | backend/services/inbox_service.py, with the two tables as a list of conversation rows and a map of message rows |
| store.dfy | PracticeStore | the JSON branch of backend/services/database.py |
| analytics.dfy | Analytics | modules/analytics.py |
| ai_email.dfy | AiEmail | modules/ai_email_generator.py without the language model |
| response_tracker.dfy | ResponseTracker | modules/response_tracker.py without the Gmail API |

Where the code and its own documentation disagree, the model follows the code. The lemmas make the differences visible:

- `calculate_score` documents priorities 1-5; the code yields 1..4 (`LeadScoring.PriorityMonotone`).
- `needs_attention` can list a practice twice, both times with the second reason (`LeadScoring.BothConditionsListedTwice`).
- The cooldown of a rule is measured from its oldest history entry, not its latest (`Automation.OldestEntryDecides`).
- `_text_to_html` never closes a bold tag (`EmailTemplates.BoldCloseNeverApplies`).
- The WhatsApp validation of a local `0` number compares the formatted address with 22 characters, while its inline comment counts `whatsapp:+32` and nine digits, which is 21. The model keeps the comparison as written, so an ordinary 10-digit local number is `invalid_format` (`WhatsApp.ZeroBranch`). Which of the two was meant is not evident, so this is not listed under Findings.
- The inbox stores an unknown direction as read but returns it as unread (`Inbox.ReadFlagsDisagree`).
- The reply rate can exceed 100% (`Analytics.ReplyRateExceedsHundred`).
- The personalisation score never exceeds 90 (`AiEmail.ScoreMeaning`).
- Two incoming practices with the same new id are both stored (`PracticeStore.BulkDuplicatesNewIds`).
- Keyword matching works inside words (`ResponseTracker.MeneerIsNegative`).
- The documented scoring example omits the size bonus that a missing `artsen` key earns. The code gives demographic 30 and total 21 (`LeadScoring.WorkedExample`).

## Model

| member | source | states |
|---|---|---|
| LeadScoring.SentPoints | backend/services/lead_scoring.py:113-116 | three points per e-mail sent, at most 15, nothing for zero or fewer e-mails; at least 3 once one was sent |
| LeadScoring.Engagement | backend/services/lead_scoring.py:98-126 | the engagement sub-score lies in 0..70, reaches the cap for a replied practice with a booked meeting, and is 0 without any signal |
| LeadScoring.EngagementMonotone | backend/services/lead_scoring.py:98-126 | more engagement signals or more e-mails sent never lower the engagement score |
| LeadScoring.SizeBonus | backend/services/lead_scoring.py:143-151 | exactly one size bonus (5, 10 or 15) for a doctor list, none for a non-list value, and the small bonus when the key is missing |
| LeadScoring.Demographic | backend/services/lead_scoring.py:129-153 | the demographic sub-score lies in 0..30, is at least 5 unless `artsen` is not a list, and reaches the cap with e-mail, phone and two doctors |
| LeadScoring.MissingDoctorsIsEmptyList | backend/services/lead_scoring.py:144 | a missing `artsen` key scores exactly like an empty list |
| LeadScoring.DemographicMonotoneInDoctors | backend/services/lead_scoring.py:143-153 | more doctors never lower the demographic score |
| LeadScoring.DaysTenths | backend/services/lead_scoring.py:168-175 | the multiplier for a parsed date is one of the four bands 1.5, 1.2, 1.0, 0.7 |
| LeadScoring.Recency | backend/services/lead_scoring.py:156-178 | the multiplier is 0.5 without a last e-mail date, 1.0 for an unreadable one, and otherwise one of the four bands |
| LeadScoring.RecencyDecays | backend/services/lead_scoring.py:166-175 | for a past date the multiplier never grows as time passes |
| LeadScoring.FutureDateIsThisWeek | backend/services/lead_scoring.py:166-171 | a date in the future gives a negative day count and so the week band 1.2, less than today's 1.5 |
| LeadScoring.PriorityMonotone | backend/services/lead_scoring.py:69-84 | priorities lie in 1..4, never 5, and a higher total never gets a larger priority number |
| LeadScoring.ScaleBounds | backend/services/lead_scoring.py:65 | truncating the scaled sum keeps it non-negative; a multiplier up to 1.0 never raises it and one from 1.0 never lowers it |
| LeadScoring.Clamp | backend/services/lead_scoring.py:66 | the clamp always yields a total in 0..100 |
| LeadScoring.CalculateScore | backend/services/lead_scoring.py:45-95 | the total is the engagement and demographic scores summed, scaled by the recency multiplier, truncated and clamped to 0..100; the category follows the thresholds 75/50/25 in all four directions (hot iff at least 75, warm iff 50..74, cold iff 25..49, frozen iff below 25); the priority is in 1..4 and matches the category; and the multiplier moves the total in its own direction |
| LeadScoring.ScoreIgnoresStoredScore | backend/services/lead_scoring.py:45-66 | a score already attached to the practice has no influence on the new score |
| LeadScoring.WorkedExample | backend/services/lead_scoring.py:98-153 | one opened e-mail with contact details and no `artsen` key scores engagement 13, demographic 30, total 21, frozen |
| LeadScoring.WithScore | backend/services/lead_scoring.py:186-187 | attaching the score changes nothing but the `score` field |
| LeadScoring.ScoreAll | backend/services/lead_scoring.py:185-188 | every input practice gets its own score attached, in input order |
| LeadScoring.BulkScore | backend/services/lead_scoring.py:181-196 | the result is a permutation of the scored practices, sorted by total with the highest first, each carrying its own score |
| LeadScoring.BulkScoreStable | backend/services/lead_scoring.py:191-194 | practices with equal totals keep their input order, as the stable sort does even when reversed |
| LeadScoring.HotOnly | backend/services/lead_scoring.py:202 | the filter keeps a practice of its input exactly when it is hot: every kept practice is hot, every hot practice is kept, and the result is as long as the number of hot practices |
| LeadScoring.HotOnlyConcat | backend/services/lead_scoring.py:202 | the filter keeps input order: filtering a concatenation concatenates the filtered parts |
| LeadScoring.TakePrefix | backend/services/lead_scoring.py:202 | slicing with `[:limit]` gives a prefix of length `limit` (at most the whole list), counting from the end for a negative limit |
| LeadScoring.HotLeads | backend/services/lead_scoring.py:199-202 | the first `limit` hot practices in scored order: a prefix of them, of length `min(limit, #hot)` for a non-negative limit and `max(#hot + limit, 0)` for a negative one, each with total at least 75 |
| LeadScoring.AttentionFor | backend/services/lead_scoring.py:214-235 | one entry per condition that holds, each the practice with its score and an attention reason attached and nothing else changed; when the follow-up condition holds every entry carries the follow-up reason, otherwise the stale entry carries the total and the day count |
| LeadScoring.NeedsAttention | backend/services/lead_scoring.py:205-237 | at most two entries per practice; a stale-score entry has total at least 60 and at least 7 days since the last e-mail |
| LeadScoring.BothConditionsListedTwice | backend/services/lead_scoring.py:219-235 | a practice meeting both conditions is listed twice, both times with the second reason |
| LeadScoring.NeedsAttentionAppend | backend/services/lead_scoring.py:212-237 | the scan treats each practice on its own: scanning a concatenation is concatenating the scans |
| Records.DaysSince | backend/services/lead_scoring.py:166 | whole days between two instants, rounded down as `timedelta.days` does, negative for a future date |
| Pipeline.StagesWellFormed | backend/services/pipeline.py:16-73 | the eight stages have distinct ids and orders 1..8 in table order, and their probabilities lie in 0..100 |
| Pipeline.FindStage | backend/services/pipeline.py:83-86 | the scan finds the first stage with the id, or reports that none has it |
| Pipeline.StageById | backend/services/pipeline.py:81-86 | a stage is found exactly for the eight known ids, and it is the table entry with that id |
| Pipeline.OrderOf | backend/services/pipeline.py:186-188 | the order of a known stage is in 1..8, and 0 exactly for an unknown id |
| Pipeline.StageAt | backend/services/pipeline.py:16-86 | looking up a table id gives its own entry and its position plus one as order |
| Pipeline.MoveDeal | backend/services/pipeline.py:89-150 | an unknown stage id fails with `Invalid stage` before any change; otherwise the deal ends at the target stage |
| Pipeline.MoveDealEffect | backend/services/pipeline.py:105-146 | a missing pipeline is first initialised; the move sets the target stage, its probability (in 0..100) and its display name as status, stamps the entry time, appends exactly one history entry iff the stage changed, keeps earlier entries and the deal value, and changes nothing else |
| Pipeline.MoveKeepsChain | backend/services/pipeline.py:116-127 | every history entry starts where the previous one ended and the last one ends at the current stage, before and after a move |
| Pipeline.RepeatedMoveOnlyRestamps | backend/services/pipeline.py:118-128 | moving again to the stage just reached adds no history entry and only overwrites the entry time |
| Pipeline.TargetIndex | backend/services/pipeline.py:171-182 | each activity of the transition table points into the stage table |
| Pipeline.TargetOf | backend/services/pipeline.py:171-182 | the eight activities map to their documented stages and every other activity to none |
| Pipeline.AutoStage | backend/services/pipeline.py:153-197 | an unknown activity leaves the practice unchanged; a changed practice is at the activity's target stage |
| Pipeline.AutoStageForwardOnly | backend/services/pipeline.py:184-195 | an automatic move never lowers the stage order, except into won or lost |
| Pipeline.ClosedStaysUnlessClosedTarget | backend/services/pipeline.py:186-190 | from won or lost, no stage before won is a move |
| Pipeline.ClosedDealsMoveOnlyToClosed | backend/services/pipeline.py:182-197 | a won or lost deal is left unchanged by every activity except `deal_won` and `deal_lost` |
| Pipeline.AutoStageMoves | backend/services/pipeline.py:190-195 | a qualifying activity performs exactly `move_deal` to its target with the automatic reason |
| Pipeline.TotalsOfCorrect | backend/services/pipeline.py:234-248 | the running totals of the summary loop are the stage tallies, the sum of deal values at known stages, and the won and lost counts, and won plus lost never exceeds the deals seen |
| Pipeline.NrsAt | backend/services/pipeline.py:242 | the `nr`s of the practices at one stage, in input order, one per deal counted there |
| Pipeline.TallyAllCorrect | backend/services/pipeline.py:226-243 | counting practice by practice yields, per stage, the count, the value sum and the in-order `nr`s of the practices at that stage, and the counts add up to the practices at a known stage |
| Pipeline.PipelineSummary | backend/services/pipeline.py:216-256 | total deals is the list length, each stage's count, value and `deals` list are those of the practices at that stage, total value sums the deals at known stages, won plus lost is at most the total, and the two rates exist exactly when the list is non-empty |
| Pipeline.MarkStalled | backend/services/pipeline.py:278-280 | a stalled deal is annotated with at least the requested number of days |
| Pipeline.StalledCandidates | backend/services/pipeline.py:266-283 | at most one annotated entry per practice, none of them won or lost |
| Pipeline.StalledCandidatesExact | backend/services/pipeline.py:266-283 | a practice is reported exactly when it is open and has a readable entry date strictly before the cutoff |
| Pipeline.StalledDeals | backend/services/pipeline.py:259-285 | the stalled practices, each listed once, longest in stage first |
| Pipeline.StalledStable | backend/services/pipeline.py:285 | deals with equal days in stage keep their input order, as the stable `sorted(..., reverse=True)` does |
| Pipeline.FindForecast | backend/services/pipeline.py:312 | finds the per-stage entry of a stage, or reports that there is none |
| Pipeline.AddToStage | backend/services/pipeline.py:312-321 | adding one open deal keeps one entry per stage; the entry of the deal's stage exists afterwards and its total, weighted value and count grow by the deal; every other stage's entry, and whether it exists, is unchanged; the overall sums grow by the deal |
| Pipeline.AppendEntries | backend/services/pipeline.py:312-317 | a stage seen for the first time gets the deal's entry, and every other stage's entry is unchanged |
| Pipeline.UpdateEntries | backend/services/pipeline.py:319-321 | updating a stage's entry leaves every other stage's entry unchanged |
| Pipeline.ForecastStepInv | backend/services/pipeline.py:299-321 | one more practice keeps the forecast equal to the sums over the open deals, overall and for every stage |
| Pipeline.ForecastStepStages | backend/services/pipeline.py:312-321 | after one more practice, each stage's entry is the sums over the open deals at that stage, and a stage has an entry exactly when an open deal is there |
| Pipeline.ForecastInvEntries | backend/services/pipeline.py:312-321 | every entry holds the value, weighted value and count of the open deals at its own stage, and every open deal's stage has an entry |
| Pipeline.ForecastRevenue | backend/services/pipeline.py:288-323 | won and lost deals are skipped; total and weighted value are sums over the open deals; each `by_stage` entry holds the value, weighted value and count of the open deals at its own stage, a stage has an entry exactly when an open deal is there, and the entries add up to the totals; `expected_wins` stays 0 |
| Pipeline.OpenWeightedAtMostValue | backend/services/pipeline.py:303-310 | with non-negative values and probabilities of at most 100, the weighted sum never exceeds the value sum |
| Pipeline.WeightedAtMostTotal | backend/services/pipeline.py:288-323 | under the same condition the forecast's weighted value never exceeds its total pipeline value |
| Automation.ConsideredRules | backend/services/automation_engine.py:80-83 | a rule is evaluated iff its trigger is the event or it is one of the two synthetic rules, which are evaluated for every event |
| Automation.FirstRun | backend/services/automation_engine.py:123-129 | the lookup finds the first (oldest) history entry of the rule, or reports that the rule never ran |
| Automation.ShouldExecuteNow | backend/services/automation_engine.py:113-159 | a rule that never ran is due iff there is no readable last e-mail date or at least `wait_days` days passed since it; a rule that ran is due iff its oldest entry has no readable time or at least twice `wait_days` days passed since it; a closed gate says how many days remain |
| Automation.FirstRunUnique | backend/services/automation_engine.py:126-129 | only one entry is the first run of a rule, and the lookup finds it |
| Automation.FirstRunIs | backend/services/automation_engine.py:126-129 | the first entry of a rule is the one the lookup returns |
| Automation.GateStaysOpen | backend/services/automation_engine.py:131-159 | an open gate stays open as time passes while the history is unchanged |
| Automation.LaterRunsIgnored | backend/services/automation_engine.py:126-157 | once a rule has run, appending more entries never changes its gate: the oldest entry keeps deciding |
| Automation.OldestEntryDecides | backend/services/automation_engine.py:126-157 | a rule run ten days ago and again one day ago, with a two-day wait, is due again because the oldest run decides |
| Automation.ActionFor | backend/services/automation_engine.py:96-104 | an emitted action copies its rule's name, action type, template and priority, is scheduled for the current time, carries the gate's reason and the practice's `nr` |
| Automation.Fire | backend/services/automation_engine.py:80-108 | every emitted action belongs to a rule that fires, at most one per rule |
| Automation.FireComplete | backend/services/automation_engine.py:80-108 | every rule that fires contributes its action |
| Automation.FireConcat | backend/services/automation_engine.py:80-110 | actions come out in rule-table order |
| Automation.CheckTriggers | backend/services/automation_engine.py:66-110 | at most one action per rule, each for the practice's own id |
| Automation.CheckTriggersExact | backend/services/automation_engine.py:80-108 | a rule's action is emitted iff the rule is considered for the event, its condition holds and its gate is open |
| Automation.RuleNamesDistinct | backend/services/automation_engine.py:16-63 | the six rules have distinct names |
| Automation.SyntheticEventsAgree | backend/services/automation_engine.py:48-83 | `time_based` and `score_based` give the same actions, and only from the two synthetic rules |
| Automation.SendFollowUp | backend/services/automation_engine.py:217-256 | success iff the send returned true; then the practice differs only in the automated-e-mail counter, grown by exactly one, and the stamped time, and the message names the template and the address; a failed send changes nothing and reports a failed send, or a send error when the service raised |
| Automation.NotifySales | backend/services/automation_engine.py:259-300 | success unless the notifier raised, whatever it answered, with the matching message; the practice is unchanged |
| Automation.UpdateScore | backend/services/automation_engine.py:308-330 | always succeeds, attaches the freshly calculated score and changes nothing else; the message carries the new total |
| Automation.ExecuteAction | backend/services/automation_engine.py:162-214 | exactly one history entry with the rule, action, time, success and message is appended, unless an exception escaped a handler, which records nothing; an unknown action type fails and is still recorded; a successful follow-up changes only the automated-e-mail counter (up by one), the stamped time and the history, and records the sent message; a follow-up whose send did not return true fails with the failed-send or send-error message and changes nothing but the history; `notify_sales` succeeds iff the notifier did not raise, records the matching message and changes nothing but the history; `update_score` succeeds, records the new total and changes only the score and the history |
| Automation.ExecuteKeepsHistory | backend/services/automation_engine.py:195-208 | executing an action never rewrites the earlier history entries and adds at most one |
| Automation.UrgentOnly | backend/services/automation_engine.py:382-383 | an action of the list is selected exactly when it is urgent, and the result is as long as the number of urgent actions |
| Automation.UrgentOnlyConcat | backend/services/automation_engine.py:381-383 | the selection keeps list order: selecting from a concatenation concatenates the selections |
| Automation.RunUrgent | backend/services/automation_engine.py:381-385 | one execution result per urgent action |
| Automation.StepAppends | backend/services/automation_engine.py:195-208 | without an escaping exception, `execute_action` appends the entry recording the action and its own result, on any practice |
| Automation.RunUrgentSteps | backend/services/automation_engine.py:381-385 | the k-th result is the k-th urgent action executed on the practice the earlier ones left, and the returned practice is the one all of them left |
| Automation.AfterRecords | backend/services/automation_engine.py:195-208 | running k actions that each record themselves appends exactly k entries, the i-th with the i-th action's rule and type and the success and message its execution returned |
| Automation.RunUrgentFacts | backend/services/automation_engine.py:378-385 | the results and the final practice are those of the step-by-step reference, the practice keeps its `nr`, and the history gains one entry per result, recording it |
| Automation.ProcessEvent | backend/services/automation_engine.py:355-392 | the triggered count equals the listed actions, which are the triggered ones; the k-th executed result is the k-th urgent action run on the practice the earlier ones left; the returned practice is the one they left; when no exception escapes, its history gains exactly one entry per executed action, the k-th recording the k-th result |
| Automation.NothingUrgentNothingRun | backend/services/automation_engine.py:382-385 | without an urgent action nothing is executed and the practice is unchanged, whatever the executor |
| Automation.Rank | backend/services/automation_engine.py:349-350 | the four known priorities rank 0..3 and every other priority ranks last |
| Automation.CollectPending | backend/services/automation_engine.py:339-346 | both synthetic checks for every practice, at most twice the rule count per practice |
| Automation.PendingActions | backend/services/automation_engine.py:333-352 | a permutation of the collected actions ordered urgent, high, medium, low, unknown last |
| Automation.PendingStable | backend/services/automation_engine.py:350 | actions of equal priority keep their collection order |
| Automation.PendingListsSyntheticTwice | backend/services/automation_engine.py:339-346 | each qualifying synthetic rule is queued twice for the same practice |
| EmailTemplates.NextTemplate | modules/email_templates.py:452-474 | a truthy reply date always gives `demo_booked` with no delay; without one, no template exactly for fewer than 0 or at least 5 e-mails sent; delays are 0, 5, 7 or 30 days, and 0 only for the demo or the very first e-mail |
| EmailTemplates.CampaignOrder | modules/email_templates.py:464-474 | without a reply, e-mail number n (0..4) uses step n of the five-step sequence initial, follow-up 1, follow-up 2, re-engagement, re-engagement |
| EmailTemplates.GreetingForms | modules/email_templates.py:302-313 | the doctor greeting iff level high with a non-empty list without a comma; the team greeting iff level high with a comma; the medium greeting iff level medium; otherwise the formal one |
| EmailTemplates.HighWithoutDoctorsIsFormal | modules/email_templates.py:304-313 | level high with an empty doctor list falls back to the formal greeting |
| EmailTemplates.CityLine | modules/email_templates.py:318-325 | a city line exists exactly for the cities in the table, and it is that city's line |
| EmailTemplates.LocalTouch | modules/email_templates.py:316-329 | a non-empty sentence iff level high with a known city or level medium; level high with an unknown city gets the empty string |
| EmailTemplates.TextToHtml | modules/email_templates.py:347-352 | the output is the styled `div` around a body with no line break and no `**` left |
| EmailTemplates.HtmlBodyClean | modules/email_templates.py:349-351 | after the replacements no line break and no `**` pair remain |
| EmailTemplates.BoldCloseNeverApplies | modules/email_templates.py:351 | the second bold replacement is a no-op: the body is the line-break replacement followed by the opening-tag replacement only |
| EmailTemplates.PlainTextOnlyWrapped | modules/email_templates.py:347-352 | text without line breaks and `**` is only wrapped in the `div` |
| EmailTemplates.ResolveTemplate | modules/email_templates.py:292 | the template used is the requested one when it exists and `initial_outreach` otherwise |
| EmailTemplates.GetTemplate | modules/email_templates.py:292-298 | templates without their own HTML (re-engagement and onboarding) get the converted body, the others the designed HTML with the chosen greeting |
| EmailTemplates.UnknownNameFallsBack | modules/email_templates.py:292 | an unknown name yields exactly the initial outreach e-mail |
| EmailTemplates.MissingFieldsDefault | modules/email_templates.py:63-65 | a missing name, city or doctor list behaves as `Geachte praktijk`, `uw regio` and the empty string |
| EmailAutomation.FilterForCampaign | modules/email_automation.py:91-112 | kept practices come from the input and are eligible: an address, not a customer, not unsubscribed or bounced, under the maximum, and no follow-up date after today; an unreadable follow-up date of a practice that passed the earlier checks fails the whole filter |
| EmailAutomation.FilterComplete | modules/email_automation.py:95-110 | every eligible practice is kept |
| EmailAutomation.FilterConcat | modules/email_automation.py:95-112 | the filter keeps input order |
| EmailAutomation.UpdateWorkflow | modules/email_automation.py:160-173 | e-mails sent grows by one, last contact and last e-mail date are now, the template is recorded, a follow-up date is set iff the delay is non-zero, `Nog niet benaderd` becomes `Benaderd`, and nothing else changes |
| EmailAutomation.FollowUpWaits | modules/email_automation.py:105-108 | after a send with a delay, the practice is not due again before that many days have passed |
| EmailAutomation.InitialOutreachSetsNoFollowUp | modules/email_automation.py:169 | the first e-mail's zero delay is falsy, so no follow-up date is set |
| EmailAutomation.SendAdvancesSequence | modules/email_automation.py:121-166 | sending the template the sequence asks for moves the practice one step along it |
| EmailAutomation.ProcessSingle | modules/email_automation.py:114-158 | success iff sent; no next template gives the skipped result, counted as a failure; a practice without `nr` fails; a failure leaves the practice unchanged; with a template and an id, an accepted send succeeds with that template and the workflow update for its delay, a refused send is undelivered and a raised one an error |
| EmailAutomation.RunCampaign | modules/email_automation.py:59-79 | success, failed and skipped counts add up to the due practices, with one result per processed practice in order; the practices to update are the updated records of the successful sends, in order; forced runs skip nothing; a skip happens only unforced with the daily counter at the limit; unforced, every processed practice was reached with the e-mails sent so far below the daily limit, the daily counter never ends above the limit it started under, and a reached limit skips everything |
| EmailAutomation.UnderLimitSnoc | modules/email_automation.py:59-79 | a practice processed while the counter is below the limit keeps every processed practice under it |
| EmailAutomation.ProcessCampaign | modules/email_automation.py:37-89 | fails iff the filter fails; otherwise the campaign over the filtered practices reports as the loop does: counts, results in order, the updated records of the successful sends, every processed practice reached under the daily limit, and the skip rules |
| Messaging.NoBraceNoPlaceholder | backend/services/sms_service.py:279-290 | a text without `{` holds none of the placeholders |
| Messaging.ReplaceAllBraceFree | backend/services/sms_service.py:289-290 | applying the replacement table to a text without `{` changes nothing |
| Messaging.PersonalizeBraceFree | backend/services/sms_service.py:266-292 | a message without `{` is sent as written, whoever receives it |
| Messaging.PersonalizeName | backend/services/sms_service.py:280-290 | `{naam}` and `{name}` both become the `naam` value, else the `name` value, else the empty string |
| Messaging.DeliveryFor | backend/services/sms_service.py:144-173 | a recipient fails as missing a phone number exactly when it has none; it is sent exactly when the provider accepts the personalised text at the formatted address; only the missing-number and sent entries carry the practice id; a Twilio error repeats a number and the other failures carry neither |
| Messaging.SendBulk | backend/services/sms_service.py:136-176 | one result per recipient in order, `sent + failed == total == len(recipients)`, and the sent count is the number of delivered results |
| Sms.SegmentsAsWritten | backend/services/sms_service.py:256-264 | at least one segment, and exactly one iff the message has at most 160 characters |
| Sms.Segments | backend/services/sms_service.py:258-259 | the corrected count: at least one segment, exactly one iff at most 160 characters |
| Sms.SegmentsFewest | backend/services/sms_service.py:258-259 | the corrected count is the fewest segments (160 characters in the first, 153 in each further one) that hold the message |
| Sms.SegmentsMonotone | backend/services/sms_service.py:261-264 | both counts are non-decreasing in the length |
| Sms.AsWrittenOvercounts | backend/services/sms_service.py:262-264 | the code as written counts one segment too many exactly when the characters past 160 fill whole further segments, and agrees everywhere else |
| Sms.ExactFillCounterexample | backend/services/sms_service.py:264 | a 313-character message fits in two segments but is counted as three |
| Sms.ComposerSegments | frontend/src/components/messaging/MessageComposer.jsx:35-39 | the composer's count is at least one |
| Sms.CeilDiv | frontend/src/components/messaging/MessageComposer.jsx:38 | `Math.ceil(a / b)` is the least integer not below the quotient |
| Sms.ComposerAgrees | frontend/src/components/messaging/MessageComposer.jsx:35-39 | the corrected count equals the composer's count for every length |
| Sms.ComposerDiffersFromAsWritten | frontend/src/components/messaging/MessageComposer.jsx:35-39 | the backend as written and the composer differ exactly when `len - 160` is a positive multiple of 153 |
| Sms.EstimateCost | backend/services/sms_service.py:333-359 | the segments per message are the backend's own count, which is the fewest segments holding the message or one more exactly on a full further segment; `total_segments` is that times the recipients, and at least the recipient count |
| Sms.NormalizePhone | backend/api/sms_api.py:19-34 | the empty number stays empty; every other result starts with `+` and holds only digits and `+` |
| Sms.NormalizeIdempotent | backend/api/sms_api.py:19-34 | normalising a normalised number returns it unchanged |
| Sms.NormalizeSpellingsMeet | backend/api/sms_api.py:28-32 | the local `0`, international `+32` and short spellings of one subscriber number normalise alike |
| Sms.NormalizeVectors | test_sprint2_backend.py:135-140 | `0471234567`, `+32471234567` and `471234567` all normalise to `+32471234567`, and the empty number to the empty string |
| Sms.FirstWithPhone | backend/api/sms_api.py:291-295 | the first practice whose normalised `tel` is the key, or none when no practice has it |
| Sms.MatchSender | backend/api/sms_api.py:287-295 | the first practice whose normalised `tel` equals the normalised sender, or none when none does |
| Sms.IncomingReply | backend/api/sms_api.py:282-295 | a message is attributed only if it has a body and a sender, and every such message is attributed to the first matching practice, if any |
| Sms.EmptyTelNeverMatches | backend/api/sms_api.py:282-295 | a practice without a phone number is never matched to a reply |
| Sms.ValidatePhone | backend/services/sms_service.py:294-331 | `empty_phone` iff the input is empty; a valid number is a clean 12-character `+32` number; `invalid_length` iff a `+32` number is not 12 or a `0` number not 10 characters once cleaned; `invalid_format` iff any other number is not 9 characters |
| Sms.ValidateFormatted | backend/services/sms_service.py:309-315 | a formatted number validates to itself |
| Sms.ValidateAgreesWithNormalize | backend/services/sms_service.py:309-331 | a valid number without a foreign `+` prefix is formatted as the endpoints normalise it |
| Sms.ForeignNineAccepted | backend/services/sms_service.py:325-329 | a nine-character foreign number is accepted with `+32` in front of its own `+` |
| Sms.SendNumber | backend/services/sms_service.py:65-74 | the number handed to the provider holds only digits and `+` |
| Sms.SendNumberAgreesOnClean | backend/services/sms_service.py:65-74 | on an already clean number the send and the endpoints agree |
| Sms.SendNumberDiffers | backend/services/sms_service.py:65-74 | a local number behind a space keeps its `0` at send time but loses it when normalised; the empty number is sent to `+32` |
| Sms.SendBulkSms | backend/services/sms_service.py:119-176 | one result per recipient, `sent + failed == total`, each result is the recipient's delivery at the send number with a Twilio error repeating that number, a missing phone fails without a send, and a sent entry holds the personalised text at the send number |
| WhatsApp.FormatNumber | backend/services/whatsapp_service.py:319-343 | the address always starts with `whatsapp:`; an address that already has it is returned verbatim, uncleaned; otherwise the rest holds only digits and `+` |
| WhatsApp.FormatIdempotent | backend/services/whatsapp_service.py:329-331 | formatting a formatted address returns it unchanged |
| WhatsApp.FormatCleanPlus | backend/services/whatsapp_service.py:333-343 | a clean number with a leading `+` is only prefixed |
| WhatsApp.ValidatePhone | backend/services/whatsapp_service.py:372-398 | `empty_phone` iff the input is empty, never `invalid_length`, and a valid result is a `whatsapp:` address of digits and `+` |
| WhatsApp.PlusBranch | backend/services/whatsapp_service.py:389-398 | a `+32` number is valid iff it has 12 characters once cleaned, and is then only prefixed; any other length falls through to `invalid_format` |
| WhatsApp.ZeroBranch | backend/services/whatsapp_service.py:393-398 | a local `0` number is valid iff it has 11 characters once cleaned, so an ordinary 10-digit number, which the SMS service accepts, is `invalid_format` |
| WhatsApp.OtherBranch | backend/services/whatsapp_service.py:389-398 | every other number is `invalid_format` |
| WhatsApp.Lookup | backend/services/whatsapp_service.py:469-471 | the template found is a dictionary entry with that key, and none is found exactly when no entry has it |
| WhatsApp.Approved | backend/services/whatsapp_service.py:474-480 | the approved templates are exactly the entries with status `approved`, in order |
| WhatsApp.AllTemplatesApproved | backend/services/whatsapp_service.py:403-480 | every template of the dictionary is approved, so the approved list is the whole dictionary |
| WhatsApp.CatalogueKeys | backend/services/whatsapp_service.py:403-463 | a name is found exactly when it is one of the seven keys |
| WhatsApp.FillPieces | backend/services/whatsapp_service.py:161-164 | the reference substitution: slot i becomes `params[i-1]` for 1 ≤ i ≤ n, and every other piece, including a slot numbered above n, is kept |
| WhatsApp.ReplaceRender | backend/services/whatsapp_service.py:164 | replacing the text `{{i}}` in a rendered template fills exactly the slots numbered i |
| WhatsApp.FillOneThenRest | backend/services/whatsapp_service.py:163-164 | filling slot i and then the later ones is filling them all |
| WhatsApp.FillFromRenders | backend/services/whatsapp_service.py:163-164 | the replacement loop on the text agrees with the reference substitution on the pieces, when no literal or parameter holds `{` |
| WhatsApp.FillMeaning | backend/services/whatsapp_service.py:161-164 | `{{i}}` becomes `params[i-1]` for i up to the number of parameters, and every placeholder numbered higher stays in the text |
| WhatsApp.SendTemplateMessage | backend/services/whatsapp_service.py:120-173 | an unconfigured service answers first; an unknown template gives `template_not_found` without a send; otherwise the filled text goes to the formatted address and the provider's answer decides success |
| WhatsApp.SendBulkWhatsApp | backend/services/whatsapp_service.py:175-235 | one result per recipient, `sent + failed == total`, each result is the recipient's delivery at the `whatsapp:` address with a Twilio error repeating the number as given, a missing phone fails without a send, and a sent entry holds the personalised text at the formatted address |
| MessageModel.MetadataOr | backend/models/message.py:37 | missing metadata becomes the empty dictionary, given metadata is kept |
| MessageModel.AttachmentsOr | backend/models/message.py:39 | missing attachments become the empty list, given ones are kept |
| MessageModel.NewMessage | backend/models/message.py:11-39 | every given field is stored; a missing status is `sent`, a missing read flag false, and missing metadata and attachments are empty |
| MessageModel.ToDict | backend/models/message.py:41-57 | exactly the thirteen keys are emitted, the timestamp as its ISO text |
| MessageModel.StrField | backend/models/message.py:63 | a text field is read exactly when the key is present with a text value |
| MessageModel.TimestampField | backend/models/message.py:62 | ISO text is parsed, text that does not parse is an error, a `datetime` is kept as it is, and a missing timestamp is a `KeyError` |
| MessageModel.FromDict | backend/models/message.py:60-63 | a missing or unparsable timestamp fails first; a success only has known keys, takes id and content from the dictionary and keeps a `datetime` timestamp |
| MessageModel.FromDictReads | backend/models/message.py:12-63 | any dictionary that holds a message's fields under their keys and no other key, with missing optional keys standing for the defaults, reads back to that message once its timestamp reads back |
| MessageModel.RoundTrip | backend/models/message.py:41-63 | `from_dict(to_dict(m))` gives back `m`, when ISO parsing inverts ISO printing |
| MessageModel.FromDictKeepsDateTime | backend/models/message.py:62-63 | a dictionary whose timestamp is already a `datetime` reads back to the message without parsing |
| MessageModel.FromDictDefaults | backend/models/message.py:22-63 | without status, metadata, read and attachments the message gets `sent`, an empty dictionary, false and an empty list |
| MessageModel.NewConversation | backend/models/message.py:69-89 | missing messages become the empty list and missing dates become now; the other fields are stored as given |
| MessageModel.StrList | backend/models/message.py:97 | the channel list is serialised item by item |
| MessageModel.ConversationToDict | backend/models/message.py:91-103 | exactly the nine keys; `last_message` is `None` iff there is none; one serialised entry per message |
| MessageModel.ConversationMessagesInOrder | backend/models/message.py:100 | the k-th serialised message reads back to the k-th message |
| MessageModel.ConversationLastMessage | backend/models/message.py:98 | the serialised last message reads back to the last message |
| Inbox.ConversationIdInjective | backend/services/inbox_service.py:102 | different practices get different ids `conv_<practice_id>` |
| Inbox.LeadingMinus | backend/services/inbox_service.py:102 | the rendered practice id starts with `-` exactly when the id is negative |
| Inbox.OnePerPractice | backend/services/inbox_service.py:102-109 | in any store the service builds, two conversation rows never belong to the same practice |
| Inbox.Find | backend/services/inbox_service.py:112-113 | the row with that id, or none when no row has it |
| Inbox.StoredRead | backend/services/inbox_service.py:140 | the stored flag is 0 iff the direction is `inbound`, and 1 otherwise |
| Inbox.MessageId | backend/services/inbox_service.py:101 | an empty or missing message id is replaced by the generated one |
| Inbox.Touch | backend/services/inbox_service.py:111-150 | the row keeps its id, practice, name and creation time, is updated now, gains the channel only if it lacks it, and counts one more unread message iff the message is inbound |
| Inbox.Record | backend/services/inbox_service.py:105-150 | the practice's row exists afterwards; an existing row keeps its name, gains the channel only if absent and counts one more unread iff inbound; a missing row is appended with just this channel; every other row is unchanged |
| Inbox.AddMessage | backend/services/inbox_service.py:78-176 | an id already stored fails; otherwise the conversations change as `Record` says, the message is added under its id with no other message touched, the stored row holds the given conversation, party, channel, content, time, status, metadata and attachments with read flag 0 iff inbound, and the returned message holds the same with read iff outbound |
| Inbox.ReadFlagsDisagree | backend/services/inbox_service.py:140-167 | the stored and returned read flags agree exactly for the directions `inbound` and `outbound` |
| Inbox.RecordKeepsGood | backend/services/inbox_service.py:105-150 | adding a message keeps one row per practice, no repeated channel and no negative counter |
| Inbox.TouchKeepsNoDuplicates | backend/services/inbox_service.py:114-117 | the channel list never gains a duplicate |
| Inbox.MarkAsRead | backend/services/inbox_service.py:328-350 | exactly the inbound messages of the conversation are marked read, the conversation's counter becomes 0, and nothing else changes |
| Inbox.MarkAsReadKeepsGood | backend/services/inbox_service.py:334-344 | marking read keeps one row per practice, no repeated channel and no negative counter |
| Inbox.MarkAsReadClears | backend/services/inbox_service.py:334-338 | afterwards no inbound message of that conversation is stored unread |
| Inbox.SumNonNegative | backend/services/inbox_service.py:362-366 | a sum of non-negative counters is not negative |
| Inbox.UnreadCountBounds | backend/services/inbox_service.py:356-366 | the total unread count is never negative, and 0 when there are no conversations |
| Inbox.RecordUnreadCount | backend/services/inbox_service.py:145-150 | adding a message raises the total by one iff it is inbound |
| Inbox.MarkAsReadUnreadCount | backend/services/inbox_service.py:340-362 | marking a conversation read lowers the total by exactly that conversation's counter |
| PracticeStore.IndexOf | backend/services/database.py:97-101 | the first position whose `nr` matches, or none when no position matches |
| PracticeStore.GetPractice | backend/services/database.py:53-58 | a practice is found iff some record has that `nr`, and it is a record of the list with that `nr` |
| PracticeStore.GetPracticeFirst | backend/services/database.py:55-57 | the record found is the first one with that `nr` |
| PracticeStore.UpsertSingle | backend/services/database.py:91-104 | the first record with the same `nr` is replaced in place, otherwise the practice is appended; the length grows by at most one |
| PracticeStore.GetAfterUpsert | backend/services/database.py:53-104 | reading back an upserted practice by its id gives it back |
| PracticeStore.UpsertKeepsOthers | backend/services/database.py:97-101 | every record with another `nr` keeps its place |
| PracticeStore.Ids | backend/services/database.py:117 | the snapshot holds exactly the ids present in the old list |
| PracticeStore.NewOnes | backend/services/database.py:126-127 | an incoming practice is kept exactly when its id was not in the snapshot, and the result is as long as the number of such practices |
| PracticeStore.NewOnesConcat | backend/services/database.py:119-127 | the selection keeps input order: selecting from a concatenation concatenates the selections |
| PracticeStore.LastWith | backend/services/database.py:119-125 | the last incoming practice with an id, which is the one left in its slot |
| PracticeStore.OldPart | backend/services/database.py:119-125 | each old position holds what the position-by-position description says |
| PracticeStore.BulkStep | backend/services/database.py:119-127 | one more incoming practice replaces the first old record with its id if the snapshot has it, and is appended otherwise |
| PracticeStore.SlotStep | backend/services/database.py:122-125 | a later incoming practice takes over the first old position with its id |
| PracticeStore.SaveOneStep | backend/services/database.py:119-127 | the loop body turns the result for a prefix of the incoming list into the result for one more |
| PracticeStore.BulkResultEmpty | backend/services/database.py:116-117 | with no incoming practices the old list is untouched |
| PracticeStore.UpsertBulk | backend/services/database.py:113-134 | the loop gives the position-by-position result: old ids replaced in place by their last incoming practice, new ones appended in order |
| PracticeStore.BulkKeepsIds | backend/services/database.py:119-127 | the old positions keep their ids and exactly the incoming practices with new ids follow them |
| PracticeStore.BulkOfOneIsSingle | backend/services/database.py:91-127 | a bulk save of one practice is a single upsert |
| PracticeStore.BulkDuplicatesNewIds | backend/services/database.py:117-127 | two incoming practices sharing an id the snapshot lacks are both appended, so that id is then stored twice |
| PracticeStore.Without | backend/services/database.py:150 | the records without the id, each kept, in order |
| PracticeStore.Delete | backend/services/database.py:147-159 | every record with the id is removed, and the call reports true iff one existed; otherwise the list is unchanged |
| PracticeStore.WithoutShorter | backend/services/database.py:149-152 | the list gets shorter exactly when some record had the id |
| PracticeStore.GetAfterDelete | backend/services/database.py:147-159 | after a delete the id is no longer found, and every other id is found as before |
| PracticeStore.WithoutFind | backend/services/database.py:147-152 | removing one id does not change the lookup of another |
| PracticeStore.GetPracticeTail | backend/services/database.py:55-57 | the lookup checks the first record, then the rest |
| Analytics.CountOfImplies | modules/analytics.py:18-21 | a count of a stronger condition never exceeds a count of a weaker one |
| Analytics.Rate | modules/analytics.py:24-26 | a rate is 0 when its denominator is 0, never negative, and at most 100 when the count is at most the denominator |
| Analytics.GetOverview | modules/analytics.py:14-38 | the three counts are the numbers of contacted, replied and converted practices, and the rates are contacted per total, replied per contacted and converted per contacted; `converted <= contacted <= total` and `replied <= total`; every rate is 0 when its denominator is; contact and conversion rates lie in 0..100 |
| Analytics.ReplyRateExceedsHundred | modules/analytics.py:19-25 | replies of new practices count but their contacts do not, so the reply rate can reach 200% |
| Analytics.TallyStep | modules/analytics.py:54-75 | the loop body adds one practice to each stage count whose condition it meets |
| Analytics.DemoAndWonDisjoint | modules/analytics.py:70-73 | a practice is never both at `Demo` and `Klant`, so the last two stages add up to at most the number of practices |
| Analytics.GetFunnel | modules/analytics.py:40-77 | sent equals delivered; each stage counts its own condition, with `opened` and `clicked` read from the workflow keys `opened` and `clicked`; every stage is at most the number of practices; replies and wins agree with the overview |
| Analytics.GetRoi | modules/analytics.py:90-104 | current ARR is 5988 per converted practice, between 0 and 5988 per practice; the pipeline value is a fifth of 5988 per replied practice; the projected ARR is the current ARR plus the pipeline value, so never below the current ARR |
| AiEmail.PersonalizationScore | modules/ai_email_generator.py:153-177 | the score lies in 50..100 |
| AiEmail.NoProperNamesAfterLower | modules/ai_email_generator.py:159-166 | a lower-cased body has no capitalised word, so the proper-name bonus never fires |
| AiEmail.AddressesReaderIsLetterU | modules/ai_email_generator.py:168-169 | the `u`/`uw`/`jullie` check passes exactly when the letter `u` occurs |
| AiEmail.ScoreMeaning | modules/ai_email_generator.py:157-177 | the score is 50 plus 10 each for a doctor mention, any `u`, fewer than 200 words and a question mark, so at most 90 and the cap never binds |
| AiEmail.ItemFor | modules/ai_email_generator.py:285-300 | each result carries the practice's id and is an e-mail exactly when generation succeeded |
| AiEmail.GenerateBatch | modules/ai_email_generator.py:272-302 | one result per practice in input order, unless a practice lacks `nr`, which makes the whole call fail at the first such practice |
| ResponseTracker.CloseAfter | modules/response_tracker.py:83 | the lazy `.+?>` ends at the first `>` with at least one character after the `<`, with no line break in between |
| ResponseTracker.SearchFrom | modules/response_tracker.py:83 | a match is a `<` followed later by a `>` with at least one character between |
| ResponseTracker.SenderEmail | modules/response_tracker.py:83-84 | a header without `<` is its own sender; otherwise the sender is a non-empty part of the header, at least two characters shorter |
| ResponseTracker.NoOpenNoMatch | modules/response_tracker.py:83 | without a `<` the pattern never matches |
| ResponseTracker.SenderOfNamedAddress | modules/response_tracker.py:83-84 | `Name <address>` gives the address, when the name has no `<` and the address is one non-empty line without `>` |
| ResponseTracker.SenderOfBareAddress | modules/response_tracker.py:84 | a bare address is its own sender |
| ResponseTracker.LazyMatchNeedsContent | modules/response_tracker.py:83 | in `<>x>` the first `>` is taken as content and the sender is `>x` |
| ResponseTracker.Hits | modules/response_tracker.py:147-148 | the number of keywords found is positive exactly when one of them occurs |
| ResponseTracker.AnalyzeSentiment | modules/response_tracker.py:140-155 | negative iff some negative keyword occurs in the lower-cased body; positive iff none does and some positive keyword does; neutral otherwise |
| ResponseTracker.GeenInteresseIsNegative | modules/response_tracker.py:136-151 | "Geen interesse" is negative although it contains the positive keyword `interesse` |
| ResponseTracker.MeneerIsNegative | modules/response_tracker.py:137-147 | keywords match inside words: "meneer" holds `nee`, so "meneer, graag" is negative |
| ResponseTracker.HandleResponse | modules/response_tracker.py:163-186 | the action is `opt_out` iff negative, `mark_lead` iff positive and `none` iff neutral |
| ResponseTracker.UnsubscribeWins | modules/response_tracker.py:137-176 | a reply asking to unsubscribe is opted out whatever else it says |

## Left out

- Provider calls (Twilio, SendGrid, the Gmail API, OpenAI/Gemini, Slack, Supabase): each becomes a parameter or an outcome. Examples are `deliver(number, text)` for a send and `generate(practice)` for the language model. Their own behaviour is outside the model.
- The clock: every operation that reads `datetime.now()` takes `now`, in seconds. In the practice records, a stored date is an instant or a `Malformed` marker for text that does not parse. In the message model, ISO formatting and parsing are the `iso` and `parse` parameters, and text that does not parse is the `Unparsable` error.
- Floating point: rates and multipliers are exact rationals or tenths. Python's `round` to one or two decimals is not modelled. The SMS cost estimate keeps the segment and recipient counts and leaves out the price product.
- LeadScoring.CalculateScore: the exact product of the base score and the tenths multiplier is truncated. A float product can land just below a whole number and truncate one lower, and this is not modelled.
- Letter case and character classes (`lower`, `isupper`, `isdigit`, `strip`) are ASCII only. Unicode case mapping is not modelled.
- Randomness: the subject variants and the A/B testing manager choose at random and are not modelled.
- The static template texts and the HTML page template of the e-mail templates module: a template body is a parameter. The model covers only the selection, the placeholder filling and the text-to-HTML conversion.
- Inbox read operations that only run a SQL query (`get_conversations`, `get_conversation`, `search_messages`) are not modelled. Neither is the SQLite error path other than a duplicate message id.
- MessageModel.TimestampField: Python keeps a timestamp of any other type, such as a number, and passes it on. The model's `Message` has a typed timestamp, so such a value is the `Untyped` error.
- MessageModel.FromDict: `Message(**data)` checks no argument types, so Python accepts, say, the text "5" as `practice_id`. The model's `Message` has typed fields, so such a value is the `Untyped` error. The write of the parsed timestamp back into the caller's dictionary is not modelled either; only the returned message is.
- Sms.SendBulkSms, WhatsApp.SendBulkWhatsApp: the provider's error text, the Twilio error code, the message sid, the status, the campaign id and the send time in each result are not modelled. Neither is the WhatsApp `media_url`, which is only handed to the provider and echoed in the result.
- AiEmail.GenerateBatch: a practice record has a typed `nr: Option<int>`, so a missing `nr` key and a stored `'nr': None` are the same value. Python raises only for the missing key; a stored None gives an item whose `practice_id` is None. The model reports both as a missing `nr`.
- Inbox.AddMessage: the generated uuid is the `generated` parameter, not a fresh random value.
- Inbox.MarkAsRead: its constant `True` return is not modelled; the table change is.
- The response tracker's mailbox access (`check_for_replies`, body extraction, marking as read) and its filter on known practice addresses are not modelled. The model covers sender extraction, sentiment and the handler's decision.
- The AI e-mail generator's prompt building, `improve_email` and `generate_subject_variations` call the language model and are not modelled. `generate_personalized_email` is the `generate` parameter.
- The analytics A/B test results (fixed demonstration numbers) and the real-time analytics class are not modelled.
- Rate-limit sleeps and processing-time measurements are not modelled; they do not change results.
- Configuration values (sender addresses, batch limits read from the environment) are parameters or constants with the code's defaults.
- Automation: a condition that raises is skipped by the engine. With typed records every modelled condition is total, so that path never occurs in the model.
- Pipeline: `get_stages` only returns the stage table, and the summary's `conversion_rates` is always empty. Neither is modelled.
- The Supabase branch of the database service is not modelled; only the JSON file branch is.
- The Flask routes and the React front end are not modelled, except the SMS endpoints' number matching and the composer's segment count. A route only parses a request and calls a service.

## Findings

| source | as written | input that shows it | evidently intended | confidence | as-written member | corrected member |
|---|---|---|---|---|---|---|
| backend/services/sms_service.py:256-264 | past 160 characters the count is `(length - 160) // 153 + 2`, one segment too many whenever the characters past the first segment fill a whole number of 153-character segments | a 313-character message: 160 + 153 characters fit in two segments, the code counts three | the fewest segments that hold the message, `ceil((length - 160) / 153) + 1`, which is also what the message composer shows | medium; not executed | Sms.AsWrittenOvercounts | Sms.SegmentsFewest |

`Sms.EstimateCost` follows the code and uses the count as written. Its contract states how far that count can lie above the corrected one: by one segment, and only on an exact fill.
