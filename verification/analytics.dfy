/**
 * Campaign analytics over the practice list: the overview counts and
 * rates, the e-mail funnel, and the revenue projection.
 *
 * Rates are exact rationals (`real`); the service's floating-point division
 * and its rounding to one decimal are left out.
 */
module Analytics {
  import opened Wrappers
  import opened Records
  import Folds

  /** `p.get('status') != 'Nieuw'`: a practice without a status counts as contacted. */
  predicate Contacted(p: Practice) {
    p.status != Some("Nieuw")
  }

  predicate HasReplied(p: Practice) {
    p.workflow.replied
  }

  predicate Converted(p: Practice) {
    p.status == Some("Klant")
  }

  /** A count over a list never exceeds a count over it of a weaker condition. */
  lemma {:induction false} CountOfImplies<T>(s: seq<T>, p: T -> bool, q: T -> bool)
    requires forall i | 0 <= i < |s| :: p(s[i]) ==> q(s[i])
    ensures Folds.CountOf(s, p) <= Folds.CountOf(s, q)
    decreases |s|
  {
    if s != [] {
      CountOfImplies(s[..|s| - 1], p, q);
    }
  }

  /** `(n / d * 100) if d > 0 else 0`, as an exact percentage. */
  function Rate(n: nat, d: nat): (r: real)
    ensures d == 0 ==> r == 0.0
    ensures r >= 0.0
    ensures n <= d ==> r <= 100.0
  {
    if d > 0 then n as real / d as real * 100.0 else 0.0
  }

  datatype Overview = Overview(
    total: nat,
    contacted: nat,
    replied: nat,
    converted: nat,
    contactRate: real,
    replyRate: real,
    conversionRate: real)

  /** `get_overview_stats`, before rounding the rates. */
  function GetOverview(ps: seq<Practice>): (o: Overview)
    ensures o.total == |ps|
    ensures o.contacted == Folds.CountOf(ps, Contacted) && o.replied == Folds.CountOf(ps, HasReplied)
    ensures o.converted == Folds.CountOf(ps, Converted)
    ensures o.contactRate == Rate(o.contacted, o.total)
    ensures o.replyRate == Rate(o.replied, o.contacted) && o.conversionRate == Rate(o.converted, o.contacted)
    ensures o.converted <= o.contacted <= o.total && o.replied <= o.total
    ensures o.total == 0 ==> o.contactRate == 0.0
    ensures o.contacted == 0 ==> o.replyRate == 0.0 && o.conversionRate == 0.0
    ensures 0.0 <= o.contactRate <= 100.0 && 0.0 <= o.conversionRate <= 100.0
  {
    var contacted := Folds.CountOf(ps, Contacted);
    var replied := Folds.CountOf(ps, HasReplied);
    var converted := Folds.CountOf(ps, Converted);
    CountOfImplies(ps, Converted, Contacted);
    Overview(|ps|, contacted, replied, converted,
             Rate(contacted, |ps|), Rate(replied, contacted), Rate(converted, contacted))
  }

  /**
   * A reply is counted whatever the status, a contact only without status
   * `Nieuw`: so the reply rate is not bounded by 100%. A new practice that
   * replied next to a contacted one that replied gives 200%.
   */
  lemma ReplyRateExceedsHundred(a: Practice, b: Practice)
    requires a.status == Some("Nieuw") && a.workflow.replied
    requires b.status != Some("Nieuw") && b.workflow.replied
    ensures GetOverview([a, b]).replyRate == 200.0
  {
    assert [a, b][..1] == [a];
    assert Folds.CountOf([a, b], Contacted) == 1;
    assert Folds.CountOf([a, b], HasReplied) == 2;
  }

  // ---- get_funnel_analysis ----

  datatype Funnel = Funnel(
    sent: nat,
    delivered: nat,
    opens: nat,
    clicked: nat,
    replied: nat,
    demoBooked: nat,
    closedWon: nat)

  predicate WasSent(p: Practice) {
    p.workflow.emailsSent > 0
  }

  /** The funnel reads the `opened` and `clicked` keys, not `email_opened` and `email_clicked`. */
  predicate WasOpened(p: Practice) {
    p.workflow.hasOpened
  }

  predicate WasClicked(p: Practice) {
    p.workflow.hasClicked
  }

  predicate DemoBooked(p: Practice) {
    p.status == Some("Demo")
  }

  /** Each stage of the funnel as a count of its own condition. */
  function StageCounts(ps: seq<Practice>): Funnel {
    var sent := Folds.CountOf(ps, WasSent);
    Funnel(sent, sent, Folds.CountOf(ps, WasOpened), Folds.CountOf(ps, WasClicked),
           Folds.CountOf(ps, HasReplied), Folds.CountOf(ps, DemoBooked), Folds.CountOf(ps, Converted))
  }

  /** The loop body of `get_funnel_analysis` for one practice. */
  function Tally(f: Funnel, p: Practice): Funnel {
    f.(sent := f.sent + (if WasSent(p) then 1 else 0),
       delivered := f.delivered + (if WasSent(p) then 1 else 0),
       opens := f.opens + (if WasOpened(p) then 1 else 0),
       clicked := f.clicked + (if WasClicked(p) then 1 else 0),
       replied := f.replied + (if HasReplied(p) then 1 else 0),
       demoBooked := f.demoBooked + (if DemoBooked(p) then 1 else 0),
       closedWon := f.closedWon + (if Converted(p) then 1 else 0))
  }

  lemma TallyStep(ps: seq<Practice>, p: Practice)
    ensures Tally(StageCounts(ps), p) == StageCounts(ps + [p])
  {
    Folds.CountOfSnoc(ps, p, WasSent);
    Folds.CountOfSnoc(ps, p, WasOpened);
    Folds.CountOfSnoc(ps, p, WasClicked);
    Folds.CountOfSnoc(ps, p, HasReplied);
    Folds.CountOfSnoc(ps, p, DemoBooked);
    Folds.CountOfSnoc(ps, p, Converted);
  }

  /** A practice is never both in demo and a customer, so the last two stages share no practice. */
  lemma {:induction false} DemoAndWonDisjoint(ps: seq<Practice>)
    ensures Folds.CountOf(ps, DemoBooked) + Folds.CountOf(ps, Converted) <= |ps|
    decreases |ps|
  {
    if ps != [] {
      DemoAndWonDisjoint(ps[..|ps| - 1]);
    }
  }

  /** `get_funnel_analysis`: one pass over the practices, each stage counted on its own. */
  method GetFunnel(ps: seq<Practice>) returns (f: Funnel)
    ensures f.sent == f.delivered == Folds.CountOf(ps, WasSent)
    ensures f.opens == Folds.CountOf(ps, WasOpened)
    ensures f.clicked == Folds.CountOf(ps, WasClicked)
    ensures f.replied == Folds.CountOf(ps, HasReplied)
    ensures f.demoBooked == Folds.CountOf(ps, DemoBooked)
    ensures f.closedWon == Folds.CountOf(ps, Converted)
    ensures f.sent <= |ps| && f.opens <= |ps| && f.clicked <= |ps| && f.replied <= |ps|
    ensures f.demoBooked + f.closedWon <= |ps|
    ensures f.replied == GetOverview(ps).replied && f.closedWon == GetOverview(ps).converted
  {
    f := Funnel(0, 0, 0, 0, 0, 0, 0);
    var i := 0;
    while i < |ps|
      invariant 0 <= i <= |ps|
      invariant f == StageCounts(ps[..i])
    {
      TallyStep(ps[..i], ps[i]);
      assert ps[..i + 1] == ps[..i] + [ps[i]];
      f := Tally(f, ps[i]);
      i := i + 1;
    }
    assert ps[..i] == ps;
    DemoAndWonDisjoint(ps);
  }

  // ---- get_roi_projection ----

  /** `499 * 12`, the yearly value of one customer. */
  const AvgDealValue := 499 * 12

  datatype Roi = Roi(currentArr: int, pipelineValue: real, projectedArr: real)

  /** `get_roi_projection`, with the 20% pipeline share as an exact rational. */
  function GetRoi(ps: seq<Practice>): (r: Roi)
    ensures r.currentArr == 5988 * GetOverview(ps).converted
    ensures 0 <= r.currentArr <= 5988 * |ps|
    ensures r.pipelineValue == GetOverview(ps).replied as real * 5988.0 / 5.0
    ensures r.projectedArr == r.currentArr as real + r.pipelineValue
    ensures r.projectedArr >= r.currentArr as real
  {
    var o := GetOverview(ps);
    var current := o.converted * AvgDealValue;
    var pipeline := (o.replied * AvgDealValue) as real * 0.2;
    Roi(current, pipeline, current as real + pipeline)
  }
}
