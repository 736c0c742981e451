/**
 * The sales pipeline (`PipelineService`): eight fixed ordered stages, a
 * guarded move that logs stage changes, forward-only automatic moves driven
 * by activities, and three reports over a list of practices (a per-stage
 * summary, the stalled deals and a revenue forecast).
 */
module Pipeline {
  import opened Wrappers
  import opened Records
  import Sorting
  import Folds

  datatype Stage = Stage(id: string, name: string, order: int, probability: int)

  /** `DEFAULT_STAGES`, each with its entry of the probability map of `move_deal`. */
  const Stages: seq<Stage> := [
    Stage("new_lead", "Nieuwe Lead", 1, 5),
    Stage("contacted", "Contact Gemaakt", 2, 10),
    Stage("interested", "Interesse Getoond", 3, 25),
    Stage("meeting_scheduled", "Afspraak Gepland", 4, 50),
    Stage("proposal_sent", "Offerte Verstuurd", 5, 70),
    Stage("negotiation", "Onderhandeling", 6, 85),
    Stage("won", "✅ Gewonnen", 7, 100),
    Stage("lost", "❌ Verloren", 8, 0)
  ]

  /** The table is well formed: distinct ids, orders 1..8 in table order, probabilities in 0..100. */
  lemma StagesWellFormed()
    ensures forall i, j | 0 <= i < j < |Stages| :: Stages[i].id != Stages[j].id
    ensures forall i | 0 <= i < |Stages| :: Stages[i].order == i + 1
    ensures forall i | 0 <= i < |Stages| :: 0 <= Stages[i].probability <= 100
  {
  }

  predicate IsStageId(id: string) {
    exists i | 0 <= i < |Stages| :: Stages[i].id == id
  }

  /** Position of the first stage of `s` with this id. */
  function FindStage(s: seq<Stage>, id: string): (r: Option<nat>)
    ensures r.Some? ==> r.value < |s| && s[r.value].id == id
    ensures r.Some? ==> forall i | 0 <= i < r.value :: s[i].id != id
    ensures r.None? ==> forall i | 0 <= i < |s| :: s[i].id != id
  {
    if s == [] then None
    else if s[0].id == id then Some(0)
    else match FindStage(s[1..], id)
      case None => None
      case Some(k) => Some(k + 1)
  }

  /** `get_stage_by_id`. */
  function StageById(id: string): (r: Option<Stage>)
    ensures r.Some? <==> IsStageId(id)
    ensures r.Some? ==> r.value in Stages && r.value.id == id
  {
    match FindStage(Stages, id)
    case None => None
    case Some(k) => Some(Stages[k])
  }

  /** The `order` of a stage id, 0 for an id that is not a stage. */
  function OrderOf(id: string): (o: int)
    ensures 0 <= o <= |Stages|
    ensures o == 0 <==> !IsStageId(id)
  {
    StagesWellFormed();
    match StageById(id)
    case None => 0
    case Some(st) => st.order
  }

  /** Looking up a table id finds its own entry. */
  lemma StageAt(k: nat)
    requires k < |Stages|
    ensures StageById(Stages[k].id) == Some(Stages[k])
    ensures OrderOf(Stages[k].id) == k + 1
  {
    StagesWellFormed();
    var f := FindStage(Stages, Stages[k].id);
    assert f.Some?;
    assert f.value == k;
  }

  /** `practice.get('pipeline', {}).get('current_stage', 'new_lead')`. */
  function StageOf(p: Practice): string {
    if p.pipeline.Some? then p.pipeline.value.currentStage.GetOr("new_lead") else "new_lead"
  }

  function DealValue(p: Practice): int {
    if p.pipeline.Some? then p.pipeline.value.dealValue else 0
  }

  function Probability(p: Practice): int {
    if p.pipeline.Some? then p.pipeline.value.probability else 0
  }

  predicate IsClosed(id: string) {
    id == "won" || id == "lost"
  }

  const FreshPipeline := PipelineData(Some("new_lead"), [], 0, 0, None)

  /**
   * The history is a chain: each move starts where the previous one ended,
   * and the last one ends at the current stage.
   */
  predicate Chained(pd: PipelineData) {
    var h := pd.history;
    (forall i | 0 <= i < |h| - 1 :: h[i].to == h[i + 1].from)
    && (|h| > 0 ==> h[|h| - 1].to == pd.currentStage.GetOr("new_lead"))
  }

  /** The pipeline part of `move_deal` once the target stage has been found. */
  function MovePipeline(pd: PipelineData, st: Stage, now: int, reason: Option<string>): (r: PipelineData)
    ensures r.currentStage == Some(st.id)
  {
    var prev := pd.currentStage.GetOr("new_lead");
    var history := if prev != st.id then pd.history + [StageMove(prev, st.id, now, reason)] else pd.history;
    pd.(currentStage := Some(st.id), history := history,
        stageEnteredAt := Some(At(now)), probability := st.probability)
  }

  /** The effect of `move_deal` once the target stage has been found. */
  function Move(p: Practice, st: Stage, now: int, reason: Option<string>): (r: Practice)
    ensures r.pipeline.Some? && StageOf(r) == st.id
  {
    var pd := MovePipeline(p.pipeline.GetOr(FreshPipeline), st, now, reason);
    p.(pipeline := Some(pd), workflow := p.workflow.(status := Some(st.name)))
  }

  datatype MoveError = InvalidStage(stage: string)

  /** `move_deal`: fails on an unknown stage id before changing anything. */
  function MoveDeal(p: Practice, to: string, now: int, reason: Option<string>): (r: Result<Practice, MoveError>)
    ensures r.Failure? <==> !IsStageId(to)
    ensures r.Failure? ==> r.error == InvalidStage(to)
    ensures r.Success? ==> StageOf(r.value) == to
  {
    match StageById(to)
    case None => Failure(InvalidStage(to))
    case Some(st) => Success(Move(p, st, now, reason))
  }

  /**
   * What a successful move promises: the stage, probability and display
   * status of the target; one more history entry exactly when the stage
   * changed, earlier entries untouched; deal value kept; nothing else changed.
   */
  predicate MovedTo(p: Practice, q: Practice, st: Stage, now: int, reason: Option<string>) {
    var before := p.pipeline.GetOr(FreshPipeline);
    var prev := before.currentStage.GetOr("new_lead");
    q.pipeline.Some?
    && var after := q.pipeline.value;
    && after.currentStage == Some(st.id)
    && after.probability == st.probability
    && q.workflow.status == Some(st.name)
    && after.stageEnteredAt == Some(At(now))
    && after.dealValue == before.dealValue
    && |after.history| == |before.history| + (if prev != st.id then 1 else 0)
    && after.history[..|before.history|] == before.history
    && (prev != st.id ==> after.history[|before.history|] == StageMove(prev, st.id, now, reason))
    && q.(pipeline := p.pipeline, workflow := p.workflow) == p
    && q.workflow.(status := p.workflow.status) == p.workflow
  }

  /** A successful `move_deal` has exactly the effect of `MovedTo`, with a probability in 0..100. */
  lemma MoveDealEffect(p: Practice, to: string, now: int, reason: Option<string>)
    requires IsStageId(to)
    ensures StageById(to).Some?
    ensures MovedTo(p, MoveDeal(p, to, now, reason).value, StageById(to).value, now, reason)
    ensures 0 <= MoveDeal(p, to, now, reason).value.pipeline.value.probability <= 100
  {
    StagesWellFormed();
    var st := StageById(to).value;
    var q := Move(p, st, now, reason);
    var before := p.pipeline.GetOr(FreshPipeline);
    if before.currentStage.GetOr("new_lead") != to {
      assert q.pipeline.value.history == before.history + [StageMove(before.currentStage.GetOr("new_lead"), to, now, reason)];
    }
  }

  /** A move keeps the history a chain. */
  lemma MoveKeepsChain(pd: PipelineData, st: Stage, now: int, reason: Option<string>)
    requires Chained(pd)
    ensures Chained(MovePipeline(pd, st, now, reason))
  {
    var h, h' := pd.history, MovePipeline(pd, st, now, reason).history;
    var prev := pd.currentStage.GetOr("new_lead");
    if prev != st.id {
      assert h' == h + [StageMove(prev, st.id, now, reason)];
      forall i | 0 <= i < |h'| - 1
        ensures h'[i].to == h'[i + 1].from
      {
        if i < |h| - 1 {
          assert h'[i] == h[i] && h'[i + 1] == h[i + 1];
        }
      }
    }
  }

  /** Moving again to the stage just reached adds no history entry; only the entry time changes. */
  lemma RepeatedMoveOnlyRestamps(p: Practice, to: string, t1: int, t2: int, r1: Option<string>, r2: Option<string>)
    requires IsStageId(to)
    ensures var q := MoveDeal(p, to, t1, r1).value;
            var q2 := MoveDeal(q, to, t2, r2).value;
            q2 == q.(pipeline := Some(q.pipeline.value.(stageEnteredAt := Some(At(t2)))))
  {
  }

  /** `auto_stage_from_activity`'s activity table, as positions in `Stages`. */
  function TargetIndex(activity: string): (r: Option<nat>)
    ensures r.Some? ==> r.value < |Stages|
  {
    if activity == "email_sent" then Some(1)
    else if activity == "email_opened" || activity == "email_clicked" then Some(2)
    else if activity == "email_replied" || activity == "meeting_booked" then Some(3)
    else if activity == "proposal_sent" then Some(4)
    else if activity == "deal_won" then Some(6)
    else if activity == "deal_lost" then Some(7)
    else None
  }

  /** The target stage id of an activity. */
  function TargetOf(activity: string): (r: Option<string>)
    ensures r.Some? <==> TargetIndex(activity).Some?
    ensures r.Some? ==> IsStageId(r.value)
    ensures activity == "email_sent" ==> r == Some("contacted")
    ensures activity == "email_opened" || activity == "email_clicked" ==> r == Some("interested")
    ensures activity == "email_replied" || activity == "meeting_booked" ==> r == Some("meeting_scheduled")
    ensures activity == "proposal_sent" ==> r == Some("proposal_sent")
    ensures activity == "deal_won" ==> r == Some("won")
    ensures activity == "deal_lost" ==> r == Some("lost")
  {
    match TargetIndex(activity)
    case None => None
    case Some(k) => Some(Stages[k].id)
  }

  /** Whether `auto_stage_from_activity` moves a deal at `current` to `target`. */
  predicate MovesForward(current: string, target: string) {
    IsClosed(target) || OrderOf(target) > OrderOf(current)
  }

  /** `auto_stage_from_activity`: forward only, except into won or lost. */
  function AutoStage(p: Practice, activity: string, now: int): (r: Practice)
    ensures TargetOf(activity).None? ==> r == p
    ensures r != p ==> TargetOf(activity).Some? && StageOf(r) == TargetOf(activity).value
  {
    match TargetOf(activity)
    case None => p
    case Some(target) =>
      if MovesForward(StageOf(p), target) then
        MoveDeal(p, target, now, Some("Auto-moved based on activity: " + activity)).value
      else p
  }

  /** The stage order never decreases under an automatic move, unless the deal is closed. */
  lemma AutoStageForwardOnly(p: Practice, activity: string, now: int)
    ensures var r := AutoStage(p, activity, now);
            IsClosed(StageOf(r)) || OrderOf(StageOf(r)) >= OrderOf(StageOf(p))
  {
  }

  /** From a closed stage only a closed target is a move. */
  lemma ClosedStaysUnlessClosedTarget(current: string, k: nat)
    requires IsClosed(current) && k < 6
    ensures !MovesForward(current, Stages[k].id)
  {
    StagesWellFormed();
    StageAt(6);
    StageAt(7);
    StageAt(k);
    assert Stages[6].id == "won" && Stages[7].id == "lost";
  }

  /** A deal that is won or lost only moves on `deal_won` or `deal_lost`. */
  lemma ClosedDealsMoveOnlyToClosed(p: Practice, activity: string, now: int)
    requires IsClosed(StageOf(p))
    requires activity != "deal_won" && activity != "deal_lost"
    ensures AutoStage(p, activity, now) == p
  {
    match TargetIndex(activity)
    case None =>
    case Some(k) =>
      ClosedStaysUnlessClosedTarget(StageOf(p), k);
  }

  /** A moved deal goes exactly where the activity table points, through `move_deal`. */
  lemma AutoStageMoves(p: Practice, activity: string, now: int)
    requires TargetOf(activity).Some?
    requires MovesForward(StageOf(p), TargetOf(activity).value)
    ensures AutoStage(p, activity, now)
            == MoveDeal(p, TargetOf(activity).value, now, Some("Auto-moved based on activity: " + activity)).value
  {
  }

  // ---- get_pipeline_summary ----

  datatype StageTally = StageTally(count: nat, value: int, deals: seq<Option<int>>)

  datatype Rates = Rates(winRate: real, lossRate: real)

  datatype Summary = Summary(
    totalDeals: nat,
    totalValue: int,
    stages: seq<StageTally>,
    wonCount: nat,
    lostCount: nat,
    rates: Option<Rates>)

  function AtStage(id: string): Practice -> bool {
    (p: Practice) => StageOf(p) == id
  }

  function ValueAt(id: string): Practice -> int {
    (p: Practice) => if StageOf(p) == id then DealValue(p) else 0
  }

  function KnownStage(p: Practice): bool {
    IsStageId(StageOf(p))
  }

  function KnownValue(p: Practice): int {
    if KnownStage(p) then DealValue(p) else 0
  }

  function TallyCount(t: StageTally): int {
    t.count
  }

  /** The `nr`s of the practices of `ps` at stage `id`, in the order of `ps`. */
  function NrsAt(ps: seq<Practice>, id: string): (r: seq<Option<int>>)
    ensures |r| == Folds.CountOf(ps, AtStage(id))
    decreases |ps|
  {
    if ps == [] then []
    else NrsAt(ps[..|ps| - 1], id) + (if StageOf(ps[|ps| - 1]) == id then [ps[|ps| - 1].nr] else [])
  }

  lemma NrsAtSnoc(ps: seq<Practice>, p: Practice, id: string)
    ensures NrsAt(ps + [p], id) == NrsAt(ps, id) + (if StageOf(p) == id then [p.nr] else [])
  {
    assert (ps + [p])[..|ps|] == ps;
  }

  /** `stages` holds, per stage of the table, the count, value and ids of the practices of `ps` there. */
  predicate TalliesOf(stages: seq<StageTally>, ps: seq<Practice>) {
    |stages| == |Stages|
    && (forall k | 0 <= k < |Stages| ::
          stages[k].count == Folds.CountOf(ps, AtStage(Stages[k].id))
          && stages[k].value == Folds.SumOf(ps, ValueAt(Stages[k].id))
          && stages[k].deals == NrsAt(ps, Stages[k].id))
    && Folds.SumOf(stages, TallyCount) == Folds.CountOf(ps, KnownStage)
  }

  /** Counts one practice into the table; a practice at an unknown stage is not counted. */
  function Tally(stages: seq<StageTally>, p: Practice): (r: seq<StageTally>)
    requires |stages| == |Stages|
    ensures |r| == |Stages|
  {
    match FindStage(Stages, StageOf(p))
    case None => stages
    case Some(j) =>
      stages[j := StageTally(stages[j].count + 1, stages[j].value + DealValue(p), stages[j].deals + [p.nr])]
  }

  lemma TallyStepAt(stages: seq<StageTally>, ps: seq<Practice>, p: Practice, k: nat)
    requires TalliesOf(stages, ps) && k < |Stages|
    ensures Tally(stages, p)[k].count == Folds.CountOf(ps + [p], AtStage(Stages[k].id))
    ensures Tally(stages, p)[k].value == Folds.SumOf(ps + [p], ValueAt(Stages[k].id))
    ensures Tally(stages, p)[k].deals == NrsAt(ps + [p], Stages[k].id)
  {
    StagesWellFormed();
    Folds.CountOfSnoc(ps, p, AtStage(Stages[k].id));
    Folds.SumOfSnoc(ps, p, ValueAt(Stages[k].id));
    NrsAtSnoc(ps, p, Stages[k].id);
  }

  lemma TallyStep(stages: seq<StageTally>, ps: seq<Practice>, p: Practice)
    requires TalliesOf(stages, ps)
    ensures TalliesOf(Tally(stages, p), ps + [p])
  {
    forall k | 0 <= k < |Stages|
      ensures Tally(stages, p)[k].count == Folds.CountOf(ps + [p], AtStage(Stages[k].id))
              && Tally(stages, p)[k].value == Folds.SumOf(ps + [p], ValueAt(Stages[k].id))
              && Tally(stages, p)[k].deals == NrsAt(ps + [p], Stages[k].id)
    {
      TallyStepAt(stages, ps, p, k);
    }
    Folds.CountOfSnoc(ps, p, KnownStage);
    match FindStage(Stages, StageOf(p))
    case None =>
    case Some(j) =>
      Folds.SumOfUpdate(stages, j, Tally(stages, p)[j], TallyCount);
  }

  /** One empty tally per stage. */
  function ZeroTable(): (r: seq<StageTally>)
    ensures |r| == |Stages| && forall k | 0 <= k < |r| :: r[k] == StageTally(0, 0, [])
  {
    seq(|Stages|, _ => StageTally(0, 0, []))
  }

  /** The table after counting `ps` one practice at a time. */
  function TallyAll(ps: seq<Practice>): (r: seq<StageTally>)
    ensures |r| == |Stages|
    decreases |ps|
  {
    if ps == [] then ZeroTable() else Tally(TallyAll(ps[..|ps| - 1]), ps[|ps| - 1])
  }

  /** Counting practice by practice yields the per-stage tallies. */
  lemma {:induction false} TallyAllCorrect(ps: seq<Practice>)
    ensures TalliesOf(TallyAll(ps), ps)
    decreases |ps|
  {
    if ps == [] {
      ZeroTallies(ZeroTable());
    } else {
      var init := ps[..|ps| - 1];
      TallyAllCorrect(init);
      TallyStep(TallyAll(init), init, ps[|ps| - 1]);
      assert init + [ps[|ps| - 1]] == ps;
    }
  }

  /** How one more practice changes the running totals of the summary. */
  lemma TotalsStep(ps: seq<Practice>, p: Practice)
    ensures Folds.SumOf(ps + [p], KnownValue)
            == Folds.SumOf(ps, KnownValue) + (if KnownStage(p) then DealValue(p) else 0)
    ensures Folds.CountOf(ps + [p], AtStage("won"))
            == Folds.CountOf(ps, AtStage("won")) + (if StageOf(p) == "won" then 1 else 0)
    ensures Folds.CountOf(ps + [p], AtStage("lost"))
            == Folds.CountOf(ps, AtStage("lost")) + (if StageOf(p) == "lost" then 1 else 0)
  {
    Folds.SumOfSnoc(ps, p, KnownValue);
    Folds.CountOfSnoc(ps, p, AtStage("won"));
    Folds.CountOfSnoc(ps, p, AtStage("lost"));
  }

  /** The running totals of the summary loop. */
  datatype Totals = Totals(stages: seq<StageTally>, value: int, won: nat, lost: nat)

  /** The summary loop's body for one deal. */
  function AddDeal(t: Totals, p: Practice): (r: Totals)
    requires |t.stages| == |Stages|
    ensures |r.stages| == |Stages|
  {
    Totals(Tally(t.stages, p),
           t.value + (if KnownStage(p) then DealValue(p) else 0),
           t.won + (if StageOf(p) == "won" then 1 else 0),
           t.lost + (if StageOf(p) == "lost" then 1 else 0))
  }

  /** The totals after `ps`, one deal at a time. */
  function TotalsOf(ps: seq<Practice>): (t: Totals)
    ensures |t.stages| == |Stages|
    decreases |ps|
  {
    if ps == [] then Totals(ZeroTable(), 0, 0, 0)
    else AddDeal(TotalsOf(ps[..|ps| - 1]), ps[|ps| - 1])
  }

  /** The running totals are the tallies, the value sum and the two counts of the deals seen. */
  lemma {:induction false} TotalsOfCorrect(ps: seq<Practice>)
    ensures TotalsOf(ps).stages == TallyAll(ps)
    ensures TotalsOf(ps).value == Folds.SumOf(ps, KnownValue)
    ensures TotalsOf(ps).won == Folds.CountOf(ps, AtStage("won"))
    ensures TotalsOf(ps).lost == Folds.CountOf(ps, AtStage("lost"))
    ensures TotalsOf(ps).won + TotalsOf(ps).lost <= |ps|
    decreases |ps|
  {
    if ps != [] {
      var init, p := ps[..|ps| - 1], ps[|ps| - 1];
      var t := TotalsOf(init);
      assert TotalsOf(ps) == AddDeal(t, p);
      TotalsOfCorrect(init);
      assert init + [p] == ps;
      assert TotalsOf(ps).stages == TallyAll(ps) by {
        assert TallyAll(ps) == Tally(TallyAll(init), p);
      }
      TotalsStep(init, p);
    }
  }

  /** `get_pipeline_summary` without the constant, always empty `conversion_rates`. */
  method PipelineSummary(ps: seq<Practice>) returns (s: Summary)
    ensures s.totalDeals == |ps|
    ensures TalliesOf(s.stages, ps)
    ensures s.totalValue == Folds.SumOf(ps, KnownValue)
    ensures s.wonCount == Folds.CountOf(ps, AtStage("won"))
    ensures s.lostCount == Folds.CountOf(ps, AtStage("lost"))
    ensures s.wonCount + s.lostCount <= s.totalDeals
    ensures s.rates.Some? <==> |ps| > 0
    ensures s.rates.Some? ==>
              s.rates.value.winRate == s.wonCount as real / |ps| as real * 100.0
              && s.rates.value.lossRate == s.lostCount as real / |ps| as real * 100.0
  {
    var t := Totals(ZeroTable(), 0, 0, 0);
    var i := 0;
    while i < |ps|
      invariant 0 <= i <= |ps|
      invariant t == TotalsOf(ps[..i])
    {
      assert ps[..i + 1][..i] == ps[..i];
      t := AddDeal(t, ps[i]);
      i := i + 1;
    }
    assert ps[..i] == ps;
    TotalsOfCorrect(ps);
    TallyAllCorrect(ps);
    var rates := if |ps| > 0
      then Some(Rates(t.won as real / |ps| as real * 100.0, t.lost as real / |ps| as real * 100.0))
      else None;
    s := Summary(|ps|, t.value, t.stages, t.won, t.lost, rates);
  }

  /** The freshly initialised table is the tally of no practices. */
  lemma ZeroTallies(stages: seq<StageTally>)
    requires |stages| == |Stages| && forall k | 0 <= k < |stages| :: stages[k] == StageTally(0, 0, [])
    ensures TalliesOf(stages, [])
  {
    ZeroCounts(stages);
  }

  lemma {:induction false} ZeroCounts(s: seq<StageTally>)
    requires forall i | 0 <= i < |s| :: s[i].count == 0
    ensures Folds.SumOf(s, TallyCount) == 0
    decreases |s|
  {
    if s != [] {
      ZeroCounts(s[..|s| - 1]);
    }
  }

  // ---- get_stalled_deals ----

  /** The stalled-deal test: open, with a readable entry date strictly before the cutoff. */
  predicate IsStalled(p: Practice, days: int, now: int) {
    !IsClosed(StageOf(p)) && p.pipeline.Some?
    && p.pipeline.value.stageEnteredAt.Some? && p.pipeline.value.stageEnteredAt.value.At?
    && p.pipeline.value.stageEnteredAt.value.secs < now - days * SecondsPerDay
  }

  function MarkStalled(p: Practice, days: int, now: int): (q: Practice)
    requires IsStalled(p, days, now)
    ensures q.daysInStage.Some? && q.daysInStage.value >= days
  {
    var d := DaysSince(now, p.pipeline.value.stageEnteredAt.value.secs);
    assert d >= days by {
      assert (d + 1) * SecondsPerDay > days * SecondsPerDay;
    }
    p.(daysInStage := Some(d))
  }

  /** What every reported stalled deal looks like. */
  predicate StalledShape(x: Practice, days: int) {
    !IsClosed(StageOf(x)) && x.daysInStage.Some? && x.daysInStage.value >= days
  }

  /** The stalled practices in input order, each annotated with its days in stage. */
  function StalledCandidates(ps: seq<Practice>, days: int, now: int): (r: seq<Practice>)
    ensures |r| <= |ps|
    ensures forall x | x in r :: StalledShape(x, days)
    decreases |ps|
  {
    if ps == [] then []
    else
      var rest := StalledCandidates(ps[1..], days, now);
      if IsStalled(ps[0], days, now) then [MarkStalled(ps[0], days, now)] + rest else rest
  }

  /** A practice is reported exactly when it is stalled: nothing is lost and nothing is made up. */
  lemma {:induction false} StalledCandidatesExact(ps: seq<Practice>, days: int, now: int)
    ensures forall j | 0 <= j < |ps| && IsStalled(ps[j], days, now) ::
              MarkStalled(ps[j], days, now) in StalledCandidates(ps, days, now)
    ensures forall x | x in StalledCandidates(ps, days, now) ::
              exists j | 0 <= j < |ps| :: IsStalled(ps[j], days, now) && x == MarkStalled(ps[j], days, now)
    decreases |ps|
  {
    if ps != [] {
      StalledCandidatesExact(ps[1..], days, now);
      var r := StalledCandidates(ps, days, now);
      var rest := StalledCandidates(ps[1..], days, now);
      forall j | 0 <= j < |ps| && IsStalled(ps[j], days, now)
        ensures MarkStalled(ps[j], days, now) in r
      {
        if j > 0 {
          assert ps[j] == ps[1..][j - 1];
        }
      }
      forall x | x in r
        ensures exists j | 0 <= j < |ps| :: IsStalled(ps[j], days, now) && x == MarkStalled(ps[j], days, now)
      {
        if x in rest {
          var j :| 0 <= j < |ps[1..]| && IsStalled(ps[1..][j], days, now) && x == MarkStalled(ps[1..][j], days, now);
          assert ps[j + 1] == ps[1..][j];
        } else {
          assert IsStalled(ps[0], days, now) && x == MarkStalled(ps[0], days, now);
        }
      }
    }
  }

  function DaysKey(p: Practice): int {
    p.daysInStage.GetOr(0)
  }

  /** `get_stalled_deals`: the stalled practices, longest in stage first. */
  function StalledDeals(ps: seq<Practice>, days: int, now: int): (r: seq<Practice>)
    ensures Sorting.SortedDesc(r, DaysKey)
    ensures multiset(r) == multiset(StalledCandidates(ps, days, now))
    ensures forall x | x in r :: StalledShape(x, days)
  {
    var c := StalledCandidates(ps, days, now);
    Sorting.SortDescMembers(c, DaysKey);
    Sorting.SortDescSorted(c, DaysKey);
    Sorting.SortDesc(c, DaysKey)
  }

  /** Deals with equal days in stage keep their input order, as the stable `sorted` does. */
  lemma StalledStable(ps: seq<Practice>, days: int, now: int, k: int)
    ensures Sorting.WithKey(StalledDeals(ps, days, now), DaysKey, k)
            == Sorting.WithKey(StalledCandidates(ps, days, now), DaysKey, k)
  {
    Sorting.SortDescStable(StalledCandidates(ps, days, now), DaysKey, k);
  }

  // ---- forecast_revenue ----

  datatype StageForecast = StageForecast(stage: string, totalValue: int, weightedValue: real, dealCount: nat)

  datatype Forecast = Forecast(
    totalPipelineValue: int,
    weightedValue: real,
    expectedWins: int,
    byStage: seq<StageForecast>)

  function Weighted(p: Practice): real {
    DealValue(p) as real * (Probability(p) as real / 100.0)
  }

  function IsOpen(p: Practice): bool {
    !IsClosed(StageOf(p))
  }

  function OpenValue(p: Practice): int {
    if IsOpen(p) then DealValue(p) else 0
  }

  function OpenWeighted(p: Practice): real {
    if IsOpen(p) then Weighted(p) else 0.0
  }

  function SfTotal(e: StageForecast): int { e.totalValue }
  function SfWeighted(e: StageForecast): real { e.weightedValue }
  function SfCount(e: StageForecast): int { e.dealCount }

  predicate DistinctStages(bs: seq<StageForecast>) {
    forall i, j | 0 <= i < j < |bs| :: bs[i].stage != bs[j].stage
  }

  function FindForecast(bs: seq<StageForecast>, stage: string): (r: Option<nat>)
    ensures r.Some? ==> r.value < |bs| && bs[r.value].stage == stage
    ensures r.None? ==> forall i | 0 <= i < |bs| :: bs[i].stage != stage
  {
    if bs == [] then None
    else if bs[0].stage == stage then Some(0)
    else match FindForecast(bs[1..], stage)
      case None => None
      case Some(k) => Some(k + 1)
  }

  /** Whether the per-stage table has an entry for `stage`. */
  predicate HasStage(bs: seq<StageForecast>, stage: string) {
    FindForecast(bs, stage).Some?
  }

  /** The entry for `stage`, or an empty one when the table has none. */
  function EntryOf(bs: seq<StageForecast>, stage: string): StageForecast {
    match FindForecast(bs, stage)
    case None => StageForecast(stage, 0, 0.0, 0)
    case Some(k) => bs[k]
  }

  /** With distinct stages, the lookup finds each entry at its own position. */
  lemma FindForecastAt(bs: seq<StageForecast>, i: nat)
    requires DistinctStages(bs) && i < |bs|
    ensures FindForecast(bs, bs[i].stage) == Some(i)
  {
  }

  function OpenAt(stage: string): Practice -> bool {
    (p: Practice) => IsOpen(p) && StageOf(p) == stage
  }

  function OpenValueAt(stage: string): Practice -> int {
    (p: Practice) => if IsOpen(p) && StageOf(p) == stage then DealValue(p) else 0
  }

  function OpenWeightedAt(stage: string): Practice -> real {
    (p: Practice) => if IsOpen(p) && StageOf(p) == stage then Weighted(p) else 0.0
  }

  /** Reference entry for `stage`: value, weighted value and count of the open deals of `ps` at that stage. */
  function StageSums(ps: seq<Practice>, stage: string): StageForecast {
    StageForecast(stage, Folds.SumOf(ps, OpenValueAt(stage)), Folds.RealSumOf(ps, OpenWeightedAt(stage)),
                  Folds.CountOf(ps, OpenAt(stage)))
  }

  lemma StageSumsSnoc(ps: seq<Practice>, p: Practice, stage: string)
    ensures var old_ := StageSums(ps, stage);
            StageSums(ps + [p], stage)
            == if IsOpen(p) && StageOf(p) == stage
               then StageForecast(stage, old_.totalValue + DealValue(p), old_.weightedValue + Weighted(p),
                                  old_.dealCount + 1)
               else old_
  {
    Folds.SumOfSnoc(ps, p, OpenValueAt(stage));
    Folds.RealSumOfSnoc(ps, p, OpenWeightedAt(stage));
    Folds.CountOfSnoc(ps, p, OpenAt(stage));
  }

  /**
   * `forecast_revenue`: totals over the open deals, and per stage in order
   * of first appearance. `expected_wins` is initialised and never updated.
   */
  function ForecastStep(f: Forecast, p: Practice): Forecast
    requires DistinctStages(f.byStage)
  {
    if !IsOpen(p) then f
    else
      var e := StageForecast(StageOf(p), DealValue(p), Weighted(p), 1);
      Forecast(f.totalPipelineValue + e.totalValue, f.weightedValue + e.weightedValue, 0,
               AddToStage(f.byStage, e))
  }

  /**
   * The forecast after `ps`: the overall sums over the open deals, and, for
   * every stage, an entry exactly when some open deal is there, holding the
   * sums over the open deals at that stage.
   */
  ghost predicate ForecastInv(ps: seq<Practice>, f: Forecast) {
    f.expectedWins == 0
    && f.totalPipelineValue == Folds.SumOf(ps, OpenValue)
    && f.weightedValue == Folds.RealSumOf(ps, OpenWeighted)
    && DistinctStages(f.byStage)
    && (forall e | e in f.byStage :: !IsClosed(e.stage))
    && Folds.SumOf(f.byStage, SfTotal) == f.totalPipelineValue
    && Folds.RealSumOf(f.byStage, SfWeighted) == f.weightedValue
    && Folds.SumOf(f.byStage, SfCount) == Folds.CountOf(ps, IsOpen)
    && (forall stage :: EntryOf(f.byStage, stage) == StageSums(ps, stage))
    && (forall stage :: HasStage(f.byStage, stage) <==> Folds.CountOf(ps, OpenAt(stage)) > 0)
  }

  lemma {:induction false} ForecastStepInv(ps: seq<Practice>, f: Forecast, p: Practice)
    requires ForecastInv(ps, f)
    ensures ForecastInv(ps + [p], ForecastStep(f, p))
  {
    Folds.SumOfSnoc(ps, p, OpenValue);
    Folds.RealSumOfSnoc(ps, p, OpenWeighted);
    Folds.CountOfSnoc(ps, p, IsOpen);
    ForecastStepStages(ps, f, p);
  }

  /** The per-stage part of the step: only the entry of the deal's own stage changes. */
  lemma {:induction false} ForecastStepStages(ps: seq<Practice>, f: Forecast, p: Practice)
    requires DistinctStages(f.byStage)
    requires forall stage :: EntryOf(f.byStage, stage) == StageSums(ps, stage)
    requires forall stage :: HasStage(f.byStage, stage) <==> Folds.CountOf(ps, OpenAt(stage)) > 0
    ensures forall stage :: EntryOf(ForecastStep(f, p).byStage, stage) == StageSums(ps + [p], stage)
    ensures forall stage ::
              HasStage(ForecastStep(f, p).byStage, stage) <==> Folds.CountOf(ps + [p], OpenAt(stage)) > 0
  {
    var g := ForecastStep(f, p);
    forall stage
      ensures EntryOf(g.byStage, stage) == StageSums(ps + [p], stage)
      ensures HasStage(g.byStage, stage) <==> Folds.CountOf(ps + [p], OpenAt(stage)) > 0
    {
      StageSumsSnoc(ps, p, stage);
    }
  }

  /** The inverse direction of the per-stage clauses: each entry is its stage's sums, and each open deal has an entry. */
  lemma ForecastInvEntries(ps: seq<Practice>, f: Forecast)
    requires ForecastInv(ps, f)
    ensures forall e | e in f.byStage :: e == StageSums(ps, e.stage)
    ensures forall i | 0 <= i < |ps| && IsOpen(ps[i]) :: HasStage(f.byStage, StageOf(ps[i]))
  {
    forall e | e in f.byStage
      ensures e == StageSums(ps, e.stage)
    {
      var i :| 0 <= i < |f.byStage| && f.byStage[i] == e;
      FindForecastAt(f.byStage, i);
      assert EntryOf(f.byStage, e.stage) == e;
    }
    forall i | 0 <= i < |ps| && IsOpen(ps[i])
      ensures HasStage(f.byStage, StageOf(ps[i]))
    {
      Folds.CountOfPositive(ps, i, OpenAt(StageOf(ps[i])));
    }
  }

  function ForecastRevenue(ps: seq<Practice>): (f: Forecast)
    ensures ForecastInv(ps, f)
    ensures forall e | e in f.byStage :: e == StageSums(ps, e.stage)
    ensures forall i | 0 <= i < |ps| && IsOpen(ps[i]) :: HasStage(f.byStage, StageOf(ps[i]))
    decreases |ps|
  {
    if ps == [] then
      var f := Forecast(0, 0.0, 0, []);
      assert forall stage :: EntryOf(f.byStage, stage) == StageSums(ps, stage);
      f
    else
      var init := ps[..|ps| - 1];
      var p := ps[|ps| - 1];
      assert ps == init + [p];
      ForecastStepInv(init, ForecastRevenue(init), p);
      var f := ForecastStep(ForecastRevenue(init), p);
      ForecastInvEntries(ps, f);
      f
  }

  /** Entries of a table extended by a new stage's entry. */
  lemma AppendEntries(bs: seq<StageForecast>, e: StageForecast)
    requires DistinctStages(bs) && !HasStage(bs, e.stage) && DistinctStages(bs + [e])
    ensures EntryOf(bs + [e], e.stage) == e && HasStage(bs + [e], e.stage)
    ensures forall stage | stage != e.stage ::
              EntryOf(bs + [e], stage) == EntryOf(bs, stage) && (HasStage(bs + [e], stage) <==> HasStage(bs, stage))
  {
    var r := bs + [e];
    FindForecastAt(r, |bs|);
    forall stage | stage != e.stage
      ensures EntryOf(r, stage) == EntryOf(bs, stage) && (HasStage(r, stage) <==> HasStage(bs, stage))
    {
      match FindForecast(bs, stage)
      case Some(k) =>
        FindForecastAt(r, k);
      case None =>
        assert forall i | 0 <= i < |r| :: r[i].stage != stage by {
          forall i | 0 <= i < |r|
            ensures r[i].stage != stage
          {
            if i < |bs| {
              assert r[i] == bs[i];
            }
          }
        }
    }
  }

  /** Entries of a table whose entry at `k` is replaced by one for the same stage. */
  lemma UpdateEntries(bs: seq<StageForecast>, k: nat, x: StageForecast)
    requires DistinctStages(bs) && k < |bs| && x.stage == bs[k].stage
    ensures DistinctStages(bs[k := x])
    ensures EntryOf(bs[k := x], x.stage) == x && HasStage(bs[k := x], x.stage)
    ensures forall stage | stage != x.stage ::
              EntryOf(bs[k := x], stage) == EntryOf(bs, stage) && (HasStage(bs[k := x], stage) <==> HasStage(bs, stage))
  {
    var r := bs[k := x];
    assert forall i | 0 <= i < |r| :: r[i].stage == bs[i].stage;
    FindForecastAt(r, k);
    forall stage | stage != x.stage
      ensures EntryOf(r, stage) == EntryOf(bs, stage) && (HasStage(r, stage) <==> HasStage(bs, stage))
    {
      match FindForecast(bs, stage)
      case Some(j) =>
        FindForecastAt(r, j);
      case None =>
    }
  }

  /** Adds one open deal, given as a one-deal entry, to the per-stage table. */
  function AddToStage(bs: seq<StageForecast>, e: StageForecast): (r: seq<StageForecast>)
    requires DistinctStages(bs) && e.dealCount == 1
    ensures DistinctStages(r)
    ensures forall x | x in r :: x in bs || x.stage == e.stage
    ensures Folds.SumOf(r, SfTotal) == Folds.SumOf(bs, SfTotal) + e.totalValue
    ensures Folds.RealSumOf(r, SfWeighted) == Folds.RealSumOf(bs, SfWeighted) + e.weightedValue
    ensures Folds.SumOf(r, SfCount) == Folds.SumOf(bs, SfCount) + 1
    ensures HasStage(r, e.stage)
    ensures EntryOf(r, e.stage)
            == StageForecast(e.stage, EntryOf(bs, e.stage).totalValue + e.totalValue,
                             EntryOf(bs, e.stage).weightedValue + e.weightedValue,
                             EntryOf(bs, e.stage).dealCount + 1)
    ensures forall stage | stage != e.stage ::
              EntryOf(r, stage) == EntryOf(bs, stage) && (HasStage(r, stage) <==> HasStage(bs, stage))
  {
    match FindForecast(bs, e.stage)
    case None =>
      Folds.SumOfSnoc(bs, e, SfTotal);
      Folds.RealSumOfSnoc(bs, e, SfWeighted);
      Folds.SumOfSnoc(bs, e, SfCount);
      AppendEntries(bs, e);
      bs + [e]
    case Some(k) =>
      var x := bs[k];
      var x' := StageForecast(e.stage, x.totalValue + e.totalValue, x.weightedValue + e.weightedValue,
                              x.dealCount + 1);
      Folds.SumOfUpdate(bs, k, x', SfTotal);
      Folds.RealSumOfUpdate(bs, k, x', SfWeighted);
      Folds.SumOfUpdate(bs, k, x', SfCount);
      UpdateEntries(bs, k, x');
      bs[k := x']
  }

  function OpenValueReal(p: Practice): real {
    OpenValue(p) as real
  }

  lemma {:induction false} RealSumOfIntSum(ps: seq<Practice>)
    ensures Folds.RealSumOf(ps, OpenValueReal) == Folds.SumOf(ps, OpenValue) as real
    decreases |ps|
  {
    if ps != [] {
      RealSumOfIntSum(ps[..|ps| - 1]);
    }
  }

  lemma OpenWeightedAtMostValueOne(p: Practice)
    requires DealValue(p) >= 0 && Probability(p) <= 100
    ensures OpenWeighted(p) <= OpenValueReal(p)
  {
    if IsOpen(p) {
      var v, q := DealValue(p) as real, Probability(p) as real / 100.0;
      assert q <= 1.0;
      assert v * (1.0 - q) >= 0.0;
      assert Weighted(p) == v * q;
    }
  }

  lemma OpenWeightedAtMostValue(ps: seq<Practice>)
    requires forall i | 0 <= i < |ps| :: DealValue(ps[i]) >= 0 && Probability(ps[i]) <= 100
    ensures Folds.RealSumOf(ps, OpenWeighted) <= Folds.SumOf(ps, OpenValue) as real
  {
    forall i | 0 <= i < |ps|
      ensures OpenWeighted(ps[i]) <= OpenValueReal(ps[i])
    {
      OpenWeightedAtMostValueOne(ps[i]);
    }
    Folds.RealSumOfLe(ps, OpenWeighted, OpenValueReal);
    RealSumOfIntSum(ps);
  }

  /** With non-negative deal values and probabilities of at most 100, the weighted value never exceeds the total. */
  lemma WeightedAtMostTotal(ps: seq<Practice>)
    requires forall i | 0 <= i < |ps| :: DealValue(ps[i]) >= 0 && Probability(ps[i]) <= 100
    ensures ForecastRevenue(ps).weightedValue <= ForecastRevenue(ps).totalPipelineValue as real
  {
    var f := ForecastRevenue(ps);
    assert ForecastInv(ps, f);
    OpenWeightedAtMostValue(ps);
  }
}
