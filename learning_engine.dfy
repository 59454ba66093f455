/** The learning cycle's bookkeeping: the insights of a cycle are stored as
    the current insights and as a timestamped snapshot, and recorded at the
    front of a history list kept to 50 entries; then every high-impact
    recommendation becomes an active optimisation awaiting implementation.

    The engine's store entries are fields of the class: `current` for
    "learning_insights:current", `snapshots` for the
    "learning_insights:history:<timestamp>" entries, `historyList` for
    "learning_insights:history_list" and `optimizationParameters` for
    "optimization_parameters".  The recommendations are an input. */
module LearningEngine {
  import opened Wrappers
  import opened History

  /** At most this many entries are kept in the history list. */
  const InsightHistoryCap: nat := 50

  datatype Recommendation = Recommendation(
    category: string,
    recommendation: string,
    impact: string,
    implementation: string)

  datatype Insights = Insights(
    analysisTimestamp: nat,
    recommendations: seq<Recommendation>,
    nextLearningCycle: nat)

  datatype InsightEntry = InsightEntry(timestamp: nat, analysisTime: nat)

  datatype Optimization = Optimization(category: string, recommendation: string, status: string)

  datatype OptimizationParams = OptimizationParams(updatedAt: nat, activeOptimizations: seq<Optimization>)

  function Activate(r: Recommendation): Optimization
  {
    Optimization(r.category, r.recommendation, "pending_implementation")
  }

  predicate IsHighImpact(r: Recommendation)
  {
    r.impact == "high"
  }

  /** The active optimisations for a list of recommendations. */
  function HighImpact(recs: seq<Recommendation>): (ops: seq<Optimization>)
    ensures |ops| <= |recs|
    ensures forall o :: o in ops ==> o.status == "pending_implementation"
    decreases |recs|
  {
    if recs == [] then []
    else
      var r := recs[|recs| - 1];
      HighImpact(recs[..|recs| - 1]) + (if IsHighImpact(r) then [Activate(r)] else [])
  }

  /** Filtering a concatenation filters each part: the optimisations keep
      the order of their recommendations. */
  lemma {:induction false} HighImpactAppend(xs: seq<Recommendation>, ys: seq<Recommendation>)
    ensures HighImpact(xs + ys) == HighImpact(xs) + HighImpact(ys)
    decreases |ys|
  {
    if ys == [] {
      assert xs + ys == xs;
    } else {
      var front := ys[..|ys| - 1];
      HighImpactAppend(xs, front);
      assert (xs + ys)[..|xs + ys| - 1] == xs + front;
      assert (xs + ys)[|xs + ys| - 1] == ys[|ys| - 1];
    }
  }

  /** An optimisation is active exactly when some high-impact recommendation
      gave rise to it. */
  lemma {:induction false} HighImpactMembers(recs: seq<Recommendation>, o: Optimization)
    ensures o in HighImpact(recs) <==> exists i :: 0 <= i < |recs| && IsHighImpact(recs[i]) && o == Activate(recs[i])
    decreases |recs|
  {
    if recs != [] {
      var front := recs[..|recs| - 1];
      HighImpactMembers(front, o);
      assert forall i :: 0 <= i < |front| ==> front[i] == recs[i];
      if o in HighImpact(recs) && o !in HighImpact(front) {
        assert o == Activate(recs[|recs| - 1]);
      }
    }
  }

  function HighCount(recs: seq<Recommendation>): nat
    decreases |recs|
  {
    if recs == [] then 0
    else HighCount(recs[..|recs| - 1]) + (if IsHighImpact(recs[|recs| - 1]) then 1 else 0)
  }

  /** One optimisation per high-impact recommendation, none for any other. */
  lemma {:induction false} HighImpactCount(recs: seq<Recommendation>)
    ensures |HighImpact(recs)| == HighCount(recs)
    decreases |recs|
  {
    if recs != [] {
      HighImpactCount(recs[..|recs| - 1]);
    }
  }

  class Engine {
    var current: Option<Insights>
    var snapshots: map<nat, Insights>
    var historyList: seq<InsightEntry>
    var optimizationParameters: Option<OptimizationParams>

    ghost predicate Valid()
      reads this
    {
      |historyList| <= InsightHistoryCap
    }

    constructor ()
      ensures Valid()
      ensures current == None && snapshots == map[] && historyList == [] && optimizationParameters == None
    {
      current := None;
      snapshots := map[];
      historyList := [];
      optimizationParameters := None;
    }

    /** Store the insights as current and as the snapshot for `now`, and put
        an entry for them at the front of the capped history list. */
    method StoreLearningInsights(insights: Insights, now: nat)
      requires Valid()
      modifies this
      ensures Valid()
      ensures current == Some(insights)
      ensures snapshots == old(snapshots)[now := insights]
      ensures historyList == PushCapped(old(historyList), InsightEntry(now, insights.analysisTimestamp), InsightHistoryCap)
      ensures historyList[0] == InsightEntry(now, insights.analysisTimestamp)
      ensures historyList[1..] == old(historyList)[..|historyList| - 1]
      ensures optimizationParameters == old(optimizationParameters)
    {
      current := Some(insights);
      snapshots := snapshots[now := insights];
      var list := historyList;
      list := [InsightEntry(now, insights.analysisTimestamp)] + list;
      list := list[..Min(|list|, InsightHistoryCap)];
      historyList := list;
    }

    /** Record every high-impact recommendation, in order, as an optimisation
        pending implementation. */
    method ApplyLearningInsights(insights: Insights, now: nat)
      modifies this
      ensures optimizationParameters == Some(OptimizationParams(now, HighImpact(insights.recommendations)))
      ensures current == old(current) && snapshots == old(snapshots) && historyList == old(historyList)
    {
      var recs := insights.recommendations;
      var active: seq<Optimization> := [];
      var i := 0;
      while i < |recs|
        invariant 0 <= i <= |recs|
        invariant active == HighImpact(recs[..i])
      {
        var rec := recs[i];
        if rec.impact == "high" {
          active := active + [Optimization(rec.category, rec.recommendation, "pending_implementation")];
        }
        assert recs[..i + 1][..i] == recs[..i];
        i := i + 1;
      }
      assert recs[..i] == recs;
      optimizationParameters := Some(OptimizationParams(now, active));
    }

    /** One cycle given its recommendations: build the insights, store them,
        apply them. */
    method RunLearningCycle(recommendations: seq<Recommendation>, now: nat, learningUpdateHours: nat)
      returns (insights: Insights)
      requires Valid()
      modifies this
      ensures Valid()
      ensures insights == Insights(now, recommendations, now + learningUpdateHours * 60)
      ensures current == Some(insights)
      ensures snapshots == old(snapshots)[now := insights]
      ensures historyList == PushCapped(old(historyList), InsightEntry(now, now), InsightHistoryCap)
      ensures optimizationParameters == Some(OptimizationParams(now, HighImpact(recommendations)))
    {
      insights := Insights(now, recommendations, now + learningUpdateHours * 60);
      StoreLearningInsights(insights, now);
      ApplyLearningInsights(insights, now);
    }
  }
}
