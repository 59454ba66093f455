/** The conversion breakdown of the sales side of the learning engine: every
    lead is counted under its platform, its qualification and the range of
    its lead score, and counted again as converted when its status is
    "converted".  Each breakdown is an insertion-ordered dictionary from the
    key to a pair of counters. */
module SalesAnalyzer {
  import opened Wrappers
  import opened OrderedMap

  /** A lead record; an absent field reads as its default. */
  datatype Lead = Lead(
    platform: Option<string>,
    qualification: Option<string>,
    leadScore: Option<real>,
    status: Option<string>)

  function OrDefault<T>(o: Option<T>, default: T): T
  {
    match o
    case Some(v) => v
    case None => default
  }

  function PlatformOf(l: Lead): string { OrDefault(l.platform, "unknown") }
  function QualificationOf(l: Lead): string { OrDefault(l.qualification, "unqualified") }
  function ScoreOf(l: Lead): real { OrDefault(l.leadScore, 0.0) }
  function StatusOf(l: Lead): string { OrDefault(l.status, "new") }

  predicate IsConverted(l: Lead)
  {
    StatusOf(l) == "converted"
  }

  // ---------------------------------------------------------------------
  // Lead-score ranges

  datatype ScoreRange = From80 | From60 | From40 | From20 | Below20

  function RangeLabel(r: ScoreRange): string
  {
    match r
    case From80 => "80-100"
    case From60 => "60-79"
    case From40 => "40-59"
    case From20 => "20-39"
    case Below20 => "0-19"
  }

  /** Position of a range from lowest to highest. */
  function RangeRank(r: ScoreRange): nat
  {
    match r
    case Below20 => 0
    case From20 => 1
    case From40 => 2
    case From60 => 3
    case From80 => 4
  }

  /** Every score falls into exactly one range; lower bounds are inclusive. */
  function CategorizeLeadScore(score: real): (r: ScoreRange)
    ensures r == From80 <==> 80.0 <= score
    ensures r == From60 <==> 60.0 <= score < 80.0
    ensures r == From40 <==> 40.0 <= score < 60.0
    ensures r == From20 <==> 20.0 <= score < 40.0
    ensures r == Below20 <==> score < 20.0
  {
    if score >= 80.0 then From80
    else if score >= 60.0 then From60
    else if score >= 40.0 then From40
    else if score >= 20.0 then From20
    else Below20
  }

  /** A higher score never falls in a lower range. */
  lemma LeadScoreMonotone(a: real, b: real)
    requires a <= b
    ensures RangeRank(CategorizeLeadScore(a)) <= RangeRank(CategorizeLeadScore(b))
  {
  }

  /** The five labels are distinct, so no two ranges share a counter. */
  lemma RangeLabelsDistinct(r: ScoreRange, s: ScoreRange)
    ensures RangeLabel(r) == RangeLabel(s) <==> r == s
  {
  }

  // ---------------------------------------------------------------------
  // Counting

  datatype Counter = Counter(total: nat, converted: nat)

  const Zero := Counter(0, 0)

  datatype Dimension = ByPlatform | ByQualification | ByLeadScore

  /** The key a lead is counted under in a breakdown. */
  function KeyOf(l: Lead, d: Dimension): string
  {
    match d
    case ByPlatform => PlatformOf(l)
    case ByQualification => QualificationOf(l)
    case ByLeadScore => RangeLabel(CategorizeLeadScore(ScoreOf(l)))
  }

  /** One more lead, converted or not. */
  function Bump(conv: bool): Counter -> Counter
  {
    (c: Counter) => Counter(c.total + 1, c.converted + (if conv then 1 else 0))
  }

  /** The number of leads counted under `k`: the reference definition of a total. */
  function LeadsUnder(leads: seq<Lead>, d: Dimension, k: string): nat
    decreases |leads|
  {
    if leads == [] then 0
    else LeadsUnder(leads[..|leads| - 1], d, k) + (if KeyOf(leads[|leads| - 1], d) == k then 1 else 0)
  }

  /** The number of converted leads counted under `k`. */
  function ConvertedUnder(leads: seq<Lead>, d: Dimension, k: string): (n: nat)
    ensures n <= LeadsUnder(leads, d, k)
    decreases |leads|
  {
    if leads == [] then 0
    else
      var l := leads[|leads| - 1];
      ConvertedUnder(leads[..|leads| - 1], d, k) + (if KeyOf(l, d) == k && IsConverted(l) then 1 else 0)
  }

  function ConvertedCount(leads: seq<Lead>): nat
    decreases |leads|
  {
    if leads == [] then 0
    else ConvertedCount(leads[..|leads| - 1]) + (if IsConverted(leads[|leads| - 1]) then 1 else 0)
  }

  /** `data[key]["total"] += 1`, and `["converted"] += 1` for a converted
      lead, on the breakdown along `d`. */
  function CountLead(t: seq<Entry<string, Counter>>, l: Lead, d: Dimension): seq<Entry<string, Counter>>
  {
    Update(t, KeyOf(l, d), Zero, Bump(IsConverted(l)))
  }

  /** The breakdown of `leads` along `d`, keys in order of first appearance. */
  function TallyOf(leads: seq<Lead>, d: Dimension): (t: seq<Entry<string, Counter>>)
    ensures DistinctKeys(t)
    ensures forall k :: GetOr(t, k, Zero) == Counter(LeadsUnder(leads, d, k), ConvertedUnder(leads, d, k))
    ensures forall k :: Get(t, k).Some? <==> LeadsUnder(leads, d, k) > 0
    decreases |leads|
  {
    if leads == [] then []
    else
      var front := leads[..|leads| - 1];
      var l := leads[|leads| - 1];
      var prev := TallyOf(front, d);
      var r := CountLead(prev, l, d);
      assert r == Update(prev, KeyOf(l, d), Zero, Bump(IsConverted(l)));
      UpdateDistinct(prev, KeyOf(l, d), Zero, Bump(IsConverted(l)));
      assert forall k :: Get(r, k).Some? <==> LeadsUnder(leads, d, k) > 0;
      assert forall k :: GetOr(r, k, Zero) == Counter(LeadsUnder(leads, d, k), ConvertedUnder(leads, d, k)) by {
        forall k
          ensures GetOr(r, k, Zero) == Counter(LeadsUnder(leads, d, k), ConvertedUnder(leads, d, k))
        {
          if k == KeyOf(l, d) {
            var c := GetOr(prev, k, Zero);
            assert Get(r, k) == Some(Bump(IsConverted(l))(c));
          } else {
            assert Get(r, k) == Get(prev, k);
          }
        }
      }
      r
  }

  /** Every counter has no more conversions than leads. */
  lemma ConvertedAtMostTotal(leads: seq<Lead>, d: Dimension)
    ensures forall i :: 0 <= i < |TallyOf(leads, d)| ==>
              TallyOf(leads, d)[i].value.converted <= TallyOf(leads, d)[i].value.total
  {
    var t := TallyOf(leads, d);
    forall i | 0 <= i < |t|
      ensures t[i].value.converted <= t[i].value.total
    {
      GetAt(t, i);
      assert t[i].value == GetOr(t, t[i].key, Zero);
    }
  }

  function SumTotals(t: seq<Entry<string, Counter>>): nat
    decreases |t|
  {
    if t == [] then 0 else t[0].value.total + SumTotals(t[1..])
  }

  function SumConverted(t: seq<Entry<string, Counter>>): nat
    decreases |t|
  {
    if t == [] then 0 else t[0].value.converted + SumConverted(t[1..])
  }

  /** Counting one lead adds one to the totals, and one to the conversions
      exactly when it converted. */
  lemma {:induction false} BumpSums(t: seq<Entry<string, Counter>>, k: string, conv: bool)
    ensures SumTotals(Update(t, k, Zero, Bump(conv))) == SumTotals(t) + 1
    ensures SumConverted(Update(t, k, Zero, Bump(conv))) == SumConverted(t) + (if conv then 1 else 0)
    decreases |t|
  {
    if t != [] && t[0].key != k {
      BumpSums(t[1..], k, conv);
      var r := Update(t, k, Zero, Bump(conv));
      assert r == [t[0]] + Update(t[1..], k, Zero, Bump(conv));
      assert r[1..] == Update(t[1..], k, Zero, Bump(conv));
    } else if t != [] {
      var r := Update(t, k, Zero, Bump(conv));
      assert r[1..] == t[1..];
    }
  }

  /** Every lead is counted exactly once in each breakdown, and the
      conversions across keys add up to the converted leads. */
  lemma {:induction false} TallySums(leads: seq<Lead>, d: Dimension)
    ensures SumTotals(TallyOf(leads, d)) == |leads|
    ensures SumConverted(TallyOf(leads, d)) == ConvertedCount(leads)
    decreases |leads|
  {
    if leads != [] {
      var l := leads[|leads| - 1];
      TallySums(leads[..|leads| - 1], d);
      BumpSums(TallyOf(leads[..|leads| - 1], d), KeyOf(l, d), IsConverted(l));
      assert TallyOf(leads, d) == CountLead(TallyOf(leads[..|leads| - 1], d), l, d);
    }
  }

  /** Only status "converted" counts as a conversion: leads with any other
      status, or none, leave every conversion counter at zero. */
  lemma {:induction false} NoConversionWithoutStatus(leads: seq<Lead>, d: Dimension, k: string)
    requires forall i :: 0 <= i < |leads| ==> StatusOf(leads[i]) != "converted"
    ensures ConvertedUnder(leads, d, k) == 0
    decreases |leads|
  {
    if leads != [] {
      NoConversionWithoutStatus(leads[..|leads| - 1], d, k);
    }
  }

  /** The percentage of converted leads; 0 when there are none. */
  function ConversionRate(c: Counter): (r: real)
    ensures c.total == 0 ==> r == 0.0
    ensures 0.0 <= r
    ensures c.converted <= c.total ==> r <= 100.0
    ensures c.total > 0 && c.converted == c.total ==> r == 100.0
  {
    if c.total > 0 then
      var q := c.converted as real / c.total as real;
      assert c.converted <= c.total ==> q <= 1.0 by {
        if c.converted <= c.total {
          assert c.converted as real == q * c.total as real;
          assert (1.0 - q) * c.total as real >= 0.0;
        }
      }
      q * 100.0
    else 0.0
  }

  datatype ConversionRow = ConversionRow(totalLeads: nat, convertedLeads: nat, conversionRate: real)

  /** The report row for every key of a breakdown, in key order. */
  function Rows(t: seq<Entry<string, Counter>>): (rows: seq<Entry<string, ConversionRow>>)
    ensures |rows| == |t|
    ensures forall i :: 0 <= i < |t| ==>
              (rows[i].key == t[i].key &&
               rows[i].value.totalLeads == t[i].value.total &&
               rows[i].value.convertedLeads == t[i].value.converted)
    ensures forall i :: 0 <= i < |t| && t[i].value.converted <= t[i].value.total ==>
              0.0 <= rows[i].value.conversionRate <= 100.0
  {
    seq(|t|, i requires 0 <= i < |t| =>
      Entry(t[i].key, ConversionRow(t[i].value.total, t[i].value.converted, ConversionRate(t[i].value))))
  }

  /** Counting one more lead is one update of the breakdown. */
  lemma TallyStep(leads: seq<Lead>, i: nat, d: Dimension)
    requires i < |leads|
    ensures TallyOf(leads[..i + 1], d) == CountLead(TallyOf(leads[..i], d), leads[i], d)
  {
    assert leads[..i + 1][..i] == leads[..i];
  }

  /** The key of each lead along `d`, in lead order. */
  function LeadKeys(leads: seq<Lead>, d: Dimension): (ks: seq<string>)
    ensures |ks| == |leads|
    ensures forall i :: 0 <= i < |leads| ==> ks[i] == KeyOf(leads[i], d)
  {
    seq(|leads|, i requires 0 <= i < |leads| => KeyOf(leads[i], d))
  }

  /** A breakdown, and so its report, lists its keys in order of first
      appearance among the leads. */
  lemma {:induction false} TallyOrder(leads: seq<Lead>, d: Dimension)
    ensures Keys(TallyOf(leads, d)) == FirstOccurrences(LeadKeys(leads, d))
    ensures Keys(Rows(TallyOf(leads, d))) == FirstOccurrences(LeadKeys(leads, d))
    decreases |leads|
  {
    if leads != [] {
      var front := leads[..|leads| - 1];
      var l := leads[|leads| - 1];
      TallyOrder(front, d);
      LastStep(leads, d);
      LeadKeysStep(leads, d);
      UpdateFirstOccurrences(TallyOf(front, d), LeadKeys(front, d), KeyOf(l, d), Zero, Bump(IsConverted(l)));
    }
    RowsKeys(TallyOf(leads, d));
  }

  lemma LastStep(leads: seq<Lead>, d: Dimension)
    requires leads != []
    ensures TallyOf(leads, d) == CountLead(TallyOf(leads[..|leads| - 1], d), leads[|leads| - 1], d)
  {
  }

  lemma LeadKeysStep(leads: seq<Lead>, d: Dimension)
    requires leads != []
    ensures LeadKeys(leads, d) == LeadKeys(leads[..|leads| - 1], d) + [KeyOf(leads[|leads| - 1], d)]
  {
  }

  lemma RowsKeys(t: seq<Entry<string, Counter>>)
    ensures Keys(Rows(t)) == Keys(t)
  {
  }

  /** Every reported conversion rate is a percentage. */
  lemma RatesArePercentages(leads: seq<Lead>, d: Dimension)
    ensures forall i :: 0 <= i < |Rows(TallyOf(leads, d))| ==>
              0.0 <= Rows(TallyOf(leads, d))[i].value.conversionRate <= 100.0
  {
    ConvertedAtMostTotal(leads, d);
  }

  /** The three reports of the conversion analysis. */
  datatype ConversionPatterns = ConversionPatterns(
    byPlatform: seq<Entry<string, ConversionRow>>,
    byQualification: seq<Entry<string, ConversionRow>>,
    byLeadScore: seq<Entry<string, ConversionRow>>)

  /** The counting loop over the leads, updating the three breakdowns, and
      then the report rows of each. */
  method AnalyzeConversionPatterns(leads: seq<Lead>) returns (patterns: ConversionPatterns)
    ensures patterns.byPlatform == Rows(TallyOf(leads, ByPlatform))
    ensures patterns.byQualification == Rows(TallyOf(leads, ByQualification))
    ensures patterns.byLeadScore == Rows(TallyOf(leads, ByLeadScore))
  {
    var byPlatform, byQualification, byLeadScore := [], [], [];
    var i := 0;
    while i < |leads|
      invariant 0 <= i <= |leads|
      invariant byPlatform == TallyOf(leads[..i], ByPlatform)
      invariant byQualification == TallyOf(leads[..i], ByQualification)
      invariant byLeadScore == TallyOf(leads[..i], ByLeadScore)
    {
      var l := leads[i];
      byPlatform := CountLead(byPlatform, l, ByPlatform);
      byQualification := CountLead(byQualification, l, ByQualification);
      byLeadScore := CountLead(byLeadScore, l, ByLeadScore);
      TallyStep(leads, i, ByPlatform);
      TallyStep(leads, i, ByQualification);
      TallyStep(leads, i, ByLeadScore);
      i := i + 1;
    }
    assert leads[..i] == leads;
    patterns := ConversionPatterns(Rows(byPlatform), Rows(byQualification), Rows(byLeadScore));
  }
}
