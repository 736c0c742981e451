/**
 * Lead scoring (`LeadScoringService`): an engagement score from workflow
 * flags, a demographic score from contact data and practice size, a
 * recency multiplier from the last e-mail date, combined into a total in
 * 0..100 and a category; plus the list operations built on it.
 *
 * Multipliers are exact tenths (1.5 is 15): the total is the floor of
 * `(engagement + demographic) * tenths / 10`.
 */
module LeadScoring {
  import opened Wrappers
  import opened Records
  import Sorting
  import Folds

  // Engagement weights.
  const OpenedPoints := 10
  const ClickedPoints := 20
  const RepliedPoints := 30
  const PhonePoints := 25
  const MeetingPoints := 40
  const EngagementCap := 70

  // Demographic weights.
  const EmailPoints := 10
  const PhoneNumberPoints := 10
  const WebsitePoints := 5
  const LargePracticePoints := 15
  const MediumPracticePoints := 10
  const SmallPracticePoints := 5
  const DemographicCap := 30

  // Recency multipliers, in tenths.
  const NoDateTenths := 5
  const TodayTenths := 15
  const WeekTenths := 12
  const MonthTenths := 10
  const OlderTenths := 7
  const UnreadableTenths := 10

  function Flag(b: bool, points: int): int {
    if b then points else 0
  }

  /** Points for e-mails sent: three each, at most 15, nothing for a count of 0 or less. */
  function SentPoints(emailsSent: int): (r: int)
    ensures 0 <= r <= 15
    ensures emailsSent > 0 ==> r >= 3
  {
    if emailsSent > 0 then (if emailsSent * 3 < 15 then emailsSent * 3 else 15) else 0
  }

  function Engagement(w: Workflow): (e: int)
    ensures 0 <= e <= EngagementCap
    ensures w.meetingBooked && w.replied ==> e == EngagementCap
    ensures (!w.emailOpened && !w.emailClicked && !w.replied && !w.phoneContacted
             && !w.meetingBooked && w.emailsSent <= 0) ==> e == 0
  {
    var raw := Flag(w.emailOpened, OpenedPoints) + Flag(w.emailClicked, ClickedPoints)
               + Flag(w.replied, RepliedPoints) + SentPoints(w.emailsSent)
               + Flag(w.phoneContacted, PhonePoints) + Flag(w.meetingBooked, MeetingPoints);
    if raw < EngagementCap then raw else EngagementCap
  }

  /** `v` carries every engagement signal `w` carries, and has sent at least as many e-mails. */
  predicate MoreEngaged(w: Workflow, v: Workflow) {
    (w.emailOpened ==> v.emailOpened) && (w.emailClicked ==> v.emailClicked)
    && (w.replied ==> v.replied) && (w.phoneContacted ==> v.phoneContacted)
    && (w.meetingBooked ==> v.meetingBooked) && w.emailsSent <= v.emailsSent
  }

  /** More engagement never lowers the engagement score. */
  lemma EngagementMonotone(w: Workflow, v: Workflow)
    requires MoreEngaged(w, v)
    ensures Engagement(w) <= Engagement(v)
  {
  }

  /** The size bonus: exactly one of the three, and only for a list. */
  function SizeBonus(artsen: Option<Doctors>): (r: int)
    ensures artsen == None ==> r == SmallPracticePoints
    ensures artsen == Some(NotAList) ==> r == 0
    ensures artsen.Some? && artsen.value.DoctorList? ==>
              r in {SmallPracticePoints, MediumPracticePoints, LargePracticePoints}
  {
    match artsen.GetOr(DoctorList(0))
    case NotAList => 0
    case DoctorList(n) =>
      if n >= 5 then LargePracticePoints
      else if n >= 2 then MediumPracticePoints
      else SmallPracticePoints
  }

  function Demographic(p: Practice): (d: int)
    ensures 0 <= d <= DemographicCap
    ensures p.artsen != Some(NotAList) ==> d >= SmallPracticePoints
    ensures (p.email != "" && p.tel != "" && p.artsen.Some? && p.artsen.value.DoctorList?
             && p.artsen.value.count >= 2) ==> d == DemographicCap
  {
    var raw := Flag(p.email != "", EmailPoints) + Flag(p.tel != "", PhoneNumberPoints)
               + Flag(p.website != "", WebsitePoints) + SizeBonus(p.artsen);
    if raw < DemographicCap then raw else DemographicCap
  }

  /** A missing `artsen` key scores as an empty list. */
  lemma MissingDoctorsIsEmptyList(p: Practice)
    requires p.artsen == None
    ensures Demographic(p) == Demographic(p.(artsen := Some(DoctorList(0))))
  {
  }

  /** More doctors never lower the demographic score. */
  lemma DemographicMonotoneInDoctors(p: Practice, m: nat, n: nat)
    requires m <= n
    ensures Demographic(p.(artsen := Some(DoctorList(m)))) <= Demographic(p.(artsen := Some(DoctorList(n))))
  {
  }

  /** Multiplier for an interaction `days` whole days ago. */
  function DaysTenths(days: int): (t: int)
    ensures t in {TodayTenths, WeekTenths, MonthTenths, OlderTenths}
  {
    if days == 0 then TodayTenths
    else if days <= 7 then WeekTenths
    else if days <= 30 then MonthTenths
    else OlderTenths
  }

  function Recency(w: Workflow, now: int): (t: int)
    ensures t in {NoDateTenths, TodayTenths, WeekTenths, MonthTenths, OlderTenths}
    ensures w.lastEmailDate == None ==> t == NoDateTenths
    ensures w.lastEmailDate == Some(Malformed) ==> t == UnreadableTenths
  {
    match w.lastEmailDate
    case None => NoDateTenths
    case Some(Malformed) => UnreadableTenths
    case Some(At(secs)) => DaysTenths(DaysSince(now, secs))
  }

  /** For a date in the past, the multiplier only decays as time passes. */
  lemma RecencyDecays(w: Workflow, now1: int, now2: int)
    requires w.lastEmailDate.Some? && w.lastEmailDate.value.At?
    requires w.lastEmailDate.value.secs <= now1 <= now2
    ensures Recency(w, now2) <= Recency(w, now1)
  {
    var t := w.lastEmailDate.value.secs;
    assert 0 <= DaysSince(now1, t) <= DaysSince(now2, t);
  }

  /**
   * A date in the future falls in the "this week" band: it earns less than
   * an e-mail sent today, although it is more recent.
   */
  lemma FutureDateIsThisWeek(w: Workflow, now: int)
    requires w.lastEmailDate.Some? && w.lastEmailDate.value.At?
    requires w.lastEmailDate.value.secs > now
    ensures Recency(w, now) == WeekTenths < TodayTenths
  {
    assert DaysSince(now, w.lastEmailDate.value.secs) < 0;
  }

  function CategoryOf(total: int): Category {
    if total >= 75 then Hot
    else if total >= 50 then Warm
    else if total >= 25 then Cold
    else Frozen
  }

  function PriorityOf(c: Category): int {
    match c
    case Hot => 1
    case Warm => 2
    case Cold => 3
    case Frozen => 4
  }

  function NextActionOf(c: Category): string {
    match c
    case Hot => "🔥 Bel onmiddellijk!"
    case Warm => "📧 Stuur persoonlijke follow-up"
    case Cold => "📅 Zet in nurture campagne"
    case Frozen => "❄️ Wacht of markeer als verloren"
  }

  /** A higher total never gets a worse (numerically larger) priority. */
  lemma PriorityMonotone(a: int, b: int)
    requires a <= b
    ensures 1 <= PriorityOf(CategoryOf(b)) <= PriorityOf(CategoryOf(a)) <= 4
  {
  }

  /** Scaling by tenths: at most 1.0 never raises the sum, at least 1.0 never lowers it. */
  lemma ScaleBounds(sum: int, tenths: int)
    requires 0 <= sum && 0 <= tenths
    ensures sum * tenths / 10 >= 0
    ensures tenths <= 10 ==> sum * tenths / 10 <= sum
    ensures tenths >= 10 ==> sum * tenths / 10 >= sum
  {
    assert sum * tenths >= 0;
    if tenths <= 10 {
      assert sum * tenths <= sum * 10;
    } else {
      assert sum * tenths >= sum * 10;
    }
  }

  /** Truncation of the scaled sum, then the clamp to 0..100. */
  function Clamp(x: int): (r: int)
    ensures 0 <= r <= 100
  {
    if x < 0 then 0 else if x > 100 then 100 else x
  }

  function CalculateScore(p: Practice, now: int): (r: ScoreResult)
    ensures 0 <= r.total <= 100
    ensures 1 <= r.priority <= 4
    ensures r.category == Hot <==> r.total >= 75
    ensures r.category == Warm <==> 50 <= r.total < 75
    ensures r.category == Cold <==> 25 <= r.total < 50
    ensures r.category == Frozen <==> r.total < 25
    ensures r.engagement == Engagement(p.workflow) && r.demographic == Demographic(p)
    ensures r.recencyTenths == Recency(p.workflow, now)
    ensures r.total == Clamp((r.engagement + r.demographic) * r.recencyTenths / 10)
    ensures r.priority == PriorityOf(r.category) && r.nextAction == NextActionOf(r.category)
    ensures 0 <= r.engagement <= 70 && 0 <= r.demographic <= 30
    ensures r.recencyTenths <= 10 ==> r.total <= r.engagement + r.demographic
    ensures r.recencyTenths >= 10 ==> r.total >= r.engagement + r.demographic || r.total == 100
  {
    var e := Engagement(p.workflow);
    var d := Demographic(p);
    var t := Recency(p.workflow, now);
    ScaleBounds(e + d, t);
    var total := Clamp((e + d) * t / 10);
    var c := CategoryOf(total);
    ScoreResult(total, c, e, d, t, NextActionOf(c), PriorityOf(c))
  }

  /** The score does not depend on a score already stored. */
  lemma ScoreIgnoresStoredScore(p: Practice, now: int, s: Option<ScoreResult>)
    ensures CalculateScore(p.(score := s), now) == CalculateScore(p, now)
  {
  }

  /**
   * The worked example of a practice with one e-mail sent and opened, an
   * e-mail address, a phone number and a website, and no `artsen` key:
   * engagement 10 + 3 = 13; demographic 10 + 10 + 5 plus the small-practice
   * bonus of 5 that the missing list earns = 30; no last e-mail date, so
   * half of 43: total 21, frozen.
   */
  lemma WorkedExample(p: Practice, now: int)
    requires p.workflow == EmptyWorkflow.(emailOpened := true, emailsSent := 1)
    requires p.email != "" && p.tel != "" && p.website != "" && p.artsen == None
    ensures CalculateScore(p, now).engagement == 13
    ensures CalculateScore(p, now).demographic == 30
    ensures CalculateScore(p, now).total == 21
    ensures CalculateScore(p, now).category == Frozen
  {
  }

  function WithScore(p: Practice, now: int): (q: Practice)
    ensures q.score == Some(CalculateScore(p, now))
    ensures q.(score := p.score) == p
  {
    p.(score := Some(CalculateScore(p, now)))
  }

  function ScoreAll(ps: seq<Practice>, now: int): (r: seq<Practice>)
    ensures |r| == |ps|
    ensures forall i | 0 <= i < |ps| :: r[i] == WithScore(ps[i], now)
  {
    seq(|ps|, i requires 0 <= i < |ps| => WithScore(ps[i], now))
  }

  /** The sort key of `bulk_score`: the attached total. */
  function TotalKey(p: Practice): int {
    StoredTotal(p)
  }

  /**
   * `bulk_score`: every practice gets its score attached, and the list is
   * ordered by total, highest first.
   */
  function BulkScore(ps: seq<Practice>, now: int): (r: seq<Practice>)
    ensures |r| == |ps|
    ensures multiset(r) == multiset(ScoreAll(ps, now))
    ensures Sorting.SortedDesc(r, TotalKey)
    ensures forall i | 0 <= i < |r| :: r[i].score.Some? && r[i].score.value == CalculateScore(r[i], now)
  {
    var scored := ScoreAll(ps, now);
    var r := Sorting.SortDesc(scored, TotalKey);
    Sorting.SortDescSorted(scored, TotalKey);
    assert forall i | 0 <= i < |r| :: r[i] in multiset(scored);
    forall i | 0 <= i < |r|
      ensures r[i].score.Some? && r[i].score.value == CalculateScore(r[i], now)
    {
      assert r[i] in multiset(scored);
      var j :| 0 <= j < |scored| && scored[j] == r[i];
      ScoreIgnoresStoredScore(ps[j], now, Some(CalculateScore(ps[j], now)));
    }
    r
  }

  /** Practices with equal totals keep their input order. */
  lemma BulkScoreStable(ps: seq<Practice>, now: int, k: int)
    ensures Sorting.WithKey(BulkScore(ps, now), TotalKey, k) == Sorting.WithKey(ScoreAll(ps, now), TotalKey, k)
  {
    Sorting.SortDescStable(ScoreAll(ps, now), TotalKey, k);
  }

  function IsHot(p: Practice): bool {
    p.score.Some? && p.score.value.category == Hot
  }

  /** The hot practices of `s`, in order. */
  function HotOnly(s: seq<Practice>): (r: seq<Practice>)
    ensures |r| == Folds.CountOf(s, IsHot)
    ensures forall i | 0 <= i < |r| :: IsHot(r[i]) && r[i] in s
    ensures forall x | x in s && IsHot(x) :: x in r
  {
    if s == [] then []
    else
      assert s == [s[0]] + s[1..];
      Folds.CountOfCons(s[0], s[1..], IsHot);
      (if IsHot(s[0]) then [s[0]] else []) + HotOnly(s[1..])
  }

  /** The filter keeps input order: filtering a concatenation concatenates the filtered parts. */
  lemma {:induction false} HotOnlyConcat(a: seq<Practice>, b: seq<Practice>)
    ensures HotOnly(a + b) == HotOnly(a) + HotOnly(b)
    decreases |a|
  {
    if a == [] {
      assert a + b == b;
    } else {
      assert (a + b)[0] == a[0] && (a + b)[1..] == a[1..] + b;
      HotOnlyConcat(a[1..], b);
    }
  }

  /** Python's `s[:n]`: a negative `n` counts from the end. */
  function TakePrefix<T>(s: seq<T>, n: int): (r: seq<T>)
    ensures |r| <= |s| && r == s[..|r|]
    ensures n >= 0 ==> |r| == if n < |s| then n else |s|
    ensures n < 0 ==> |r| == if |s| + n > 0 then |s| + n else 0
  {
    if n >= 0 then (if n < |s| then s[..n] else s)
    else if |s| + n > 0 then s[..|s| + n] else []
  }

  /** `get_hot_leads`: the first `limit` hot practices of the scored order. */
  function HotLeads(ps: seq<Practice>, now: int, limit: int): (r: seq<Practice>)
    ensures limit >= 0 ==> |r| <= limit
    ensures forall i | 0 <= i < |r| :: IsHot(r[i]) && r[i].score.value.total >= 75
    ensures |r| <= |HotOnly(BulkScore(ps, now))| && r == HotOnly(BulkScore(ps, now))[..|r|]
    ensures var hot := HotOnly(BulkScore(ps, now));
            limit >= 0 ==> |r| == if limit < |hot| then limit else |hot|
    ensures var hot := HotOnly(BulkScore(ps, now));
            limit < 0 ==> |r| == if |hot| + limit > 0 then |hot| + limit else 0
  {
    var hot := HotOnly(BulkScore(ps, now));
    forall i | 0 <= i < |hot|
      ensures hot[i].score.value.total >= 75
    {
      var b := BulkScore(ps, now);
      var j :| 0 <= j < |b| && b[j] == hot[i];
    }
    TakePrefix(hot, limit)
  }

  /** Condition (a) of the attention scan: a high score but a stale last e-mail. */
  function StaleDays(p: Practice, now: int): Option<int> {
    var sd := CalculateScore(p, now);
    match p.workflow.lastEmailDate
    case Some(At(secs)) =>
      var days := DaysSince(now, secs);
      if sd.total >= 60 && days >= 7 then Some(days) else None
    case _ => None
  }

  /** Condition (b): opened, not replied, and fewer than two e-mails sent. */
  predicate OpenedNotFollowedUp(w: Workflow) {
    w.emailOpened && !w.replied && w.emailsSent < 2
  }

  /**
   * What the scan appends for one practice. Both appends are the same
   * object, so when both conditions hold each copy shows the reason set last.
   */
  function AttentionFor(p: Practice, now: int): (r: seq<Practice>)
    ensures |r| == (if StaleDays(p, now).Some? then 1 else 0) + (if OpenedNotFollowedUp(p.workflow) then 1 else 0)
    ensures forall x | x in r :: x.score == Some(CalculateScore(p, now)) && x.attention.Some?
    ensures forall x | x in r :: x.(score := p.score, attention := p.attention) == p
    ensures OpenedNotFollowedUp(p.workflow) ==> forall x | x in r :: x.attention == Some(OpenedNoFollowUp)
    ensures !OpenedNotFollowedUp(p.workflow) && StaleDays(p, now).Some? ==>
              r[0].attention == Some(HighScoreStale(CalculateScore(p, now).total, StaleDays(p, now).value))
  {
    var sd := CalculateScore(p, now);
    var stale := StaleDays(p, now);
    var followUp := OpenedNotFollowedUp(p.workflow);
    if followUp then
      var q := p.(score := Some(sd), attention := Some(OpenedNoFollowUp));
      if stale.Some? then [q, q] else [q]
    else if stale.Some? then
      [p.(score := Some(sd), attention := Some(HighScoreStale(sd.total, stale.value)))]
    else []
  }

  function NeedsAttention(ps: seq<Practice>, now: int): (r: seq<Practice>)
    ensures |r| <= 2 * |ps|
    ensures forall x | x in r :: x.score.Some? && x.attention.Some?
    ensures forall x | x in r && x.attention.value.HighScoreStale? ::
              x.score.value.total >= 60 && x.attention.value.score == x.score.value.total
              && x.attention.value.days >= 7
    decreases |ps|
  {
    if ps == [] then []
    else AttentionFor(ps[0], now) + NeedsAttention(ps[1..], now)
  }

  /** A practice meeting both conditions is listed twice, both times with the second reason. */
  lemma BothConditionsListedTwice(p: Practice, now: int)
    requires StaleDays(p, now).Some? && OpenedNotFollowedUp(p.workflow)
    ensures var r := NeedsAttention([p], now);
            |r| == 2 && r[0] == r[1] && r[0].attention == Some(OpenedNoFollowUp)
  {
    assert NeedsAttention([p], now) == AttentionFor(p, now) + NeedsAttention([], now);
  }

  /** Scanning a concatenation is concatenating the scans. */
  lemma {:induction false} NeedsAttentionAppend(a: seq<Practice>, b: seq<Practice>, now: int)
    ensures NeedsAttention(a + b, now) == NeedsAttention(a, now) + NeedsAttention(b, now)
    decreases |a|
  {
    if a == [] {
      assert a + b == b;
    } else {
      assert (a + b)[1..] == a[1..] + b;
      NeedsAttentionAppend(a[1..], b, now);
    }
  }
}
