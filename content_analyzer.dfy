/** The content side of the learning engine: interactions are grouped by
    their text, each group with at least two interactions is summarised
    by an engagement score, the summaries are sorted best first and split
    into a high- and a low-performing quartile; separately, hashtags used at
    least three times are reported, at most ten of them.

    Only successful interactions with non-empty text are grouped or searched
    for hashtags.  The hashtags of an interaction are given with it: they
    stand for the `#word` tokens of its lower-cased text, in order. */
module ContentAnalyzer {
  import opened Wrappers
  import opened Sorting
  import opened OrderedMap

  /** One interaction record; `kind` is its `type` field ("" when absent). */
  datatype Interaction = Interaction(
    text: string,
    content: string,
    success: bool,
    kind: string,
    platform: string,
    hashtags: seq<string>)

  /** The text of an interaction, falling back to `content` when `text` is empty. */
  function ContentOf(x: Interaction): string
  {
    if x.text != "" then x.text else x.content
  }

  /** Whether an interaction takes part in grouping and hashtag analysis. */
  predicate Eligible(x: Interaction)
  {
    ContentOf(x) != "" && x.success
  }

  // ---------------------------------------------------------------------
  // Length buckets

  datatype LengthCategory = VeryShort | Short | Medium | Long | VeryLong

  function Label(c: LengthCategory): string
  {
    match c
    case VeryShort => "very_short"
    case Short => "short"
    case Medium => "medium"
    case Long => "long"
    case VeryLong => "very_long"
  }

  /** Position of a bucket from shortest to longest. */
  function Rank(c: LengthCategory): nat
  {
    match c
    case VeryShort => 0
    case Short => 1
    case Medium => 2
    case Long => 3
    case VeryLong => 4
  }

  /** Every length falls into exactly one bucket; upper bounds are inclusive. */
  function CategorizeContentLength(length: nat): (c: LengthCategory)
    ensures c == VeryShort <==> length <= 50
    ensures c == Short <==> 50 < length <= 100
    ensures c == Medium <==> 100 < length <= 200
    ensures c == Long <==> 200 < length <= 300
    ensures c == VeryLong <==> 300 < length
  {
    if length <= 50 then VeryShort
    else if length <= 100 then Short
    else if length <= 200 then Medium
    else if length <= 300 then Long
    else VeryLong
  }

  /** Longer content never lands in a shorter bucket. */
  lemma LengthCategoryMonotone(a: nat, b: nat)
    requires a <= b
    ensures Rank(CategorizeContentLength(a)) <= Rank(CategorizeContentLength(b))
  {
  }

  // ---------------------------------------------------------------------
  // Engagement score

  /** The bonus for the interaction's type. */
  function TypeBonus(kind: string): (b: nat)
    ensures b <= 8
    ensures b == 0 <==> kind !in {"reply", "mention", "like", "favourite", "share", "boost"}
  {
    if kind == "reply" || kind == "mention" then 5
    else if kind == "like" || kind == "favourite" then 3
    else if kind == "share" || kind == "boost" then 8
    else 0
  }

  /** What one interaction adds to the score: 10 for success plus the type bonus. */
  function Points(x: Interaction): (p: nat)
    ensures p <= 18
    ensures x.success ==> 10 <= p
    ensures !x.success ==> p <= 8
  {
    (if x.success then 10 else 0) + TypeBonus(x.kind)
  }

  ghost predicate AllSuccessful(xs: seq<Interaction>)
  {
    forall i :: 0 <= i < |xs| ==> xs[i].success
  }

  /** The accumulated score before it is divided by the number of interactions. */
  function EngagementTotal(xs: seq<Interaction>): (t: nat)
    ensures t <= 18 * |xs|
    ensures AllSuccessful(xs) ==> 10 * |xs| <= t
    decreases |xs|
  {
    if xs == [] then 0
    else
      assert AllSuccessful(xs) ==> AllSuccessful(xs[..|xs| - 1]);
      EngagementTotal(xs[..|xs| - 1]) + Points(xs[|xs| - 1])
  }

  /** The total does not depend on how the interactions are split. */
  lemma {:induction false} EngagementTotalAppend(xs: seq<Interaction>, ys: seq<Interaction>)
    ensures EngagementTotal(xs + ys) == EngagementTotal(xs) + EngagementTotal(ys)
    decreases |ys|
  {
    if ys == [] {
      assert xs + ys == xs;
    } else {
      var front := ys[..|ys| - 1];
      EngagementTotalAppend(xs, front);
      assert (xs + ys)[..|xs + ys| - 1] == xs + front;
      assert (xs + ys)[|xs + ys| - 1] == ys[|ys| - 1];
    }
  }

  /** Dividing a total bounded by `c` per item by the number of items. */
  lemma DivideBounds(t: real, n: real, c: real)
    requires n > 0.0
    ensures t <= c * n ==> t / n <= c
    ensures c * n <= t ==> c <= t / n
  {
    var q := t / n;
    assert t == q * n;
    if t <= c * n {
      assert (c - q) * n >= 0.0;
    }
    if c * n <= t {
      assert (q - c) * n >= 0.0;
    }
  }

  /** The mean points per interaction; 0 for no interactions. */
  function EngagementScore(xs: seq<Interaction>): (r: real)
    ensures xs == [] ==> r == 0.0
    ensures 0.0 <= r <= 18.0
    ensures xs != [] && AllSuccessful(xs) ==> 10.0 <= r
  {
    if xs == [] then 0.0
    else
      var t := EngagementTotal(xs) as real;
      var n := |xs| as real;
      DivideBounds(t, n, 18.0);
      DivideBounds(t, n, 10.0);
      DivideBounds(t, n, 0.0);
      t / n
  }

  /** The accumulating loop: 10 per success, then the type bonus, then the
      division by the number of interactions. */
  method CalculateEngagementScore(interactions: seq<Interaction>) returns (score: real)
    ensures score == EngagementScore(interactions)
  {
    score := 0.0;
    var i := 0;
    while i < |interactions|
      invariant 0 <= i <= |interactions|
      invariant score == EngagementTotal(interactions[..i]) as real
    {
      var x := interactions[i];
      if x.success {
        score := score + 10.0;
      }
      if x.kind == "reply" || x.kind == "mention" {
        score := score + 5.0;
      } else if x.kind == "like" || x.kind == "favourite" {
        score := score + 3.0;
      } else if x.kind == "share" || x.kind == "boost" {
        score := score + 8.0;
      }
      assert interactions[..i + 1][..i] == interactions[..i];
      i := i + 1;
    }
    assert interactions[..i] == interactions;
    if |interactions| > 0 {
      score := score / |interactions| as real;
    } else {
      score := 0.0;
    }
  }

  // ---------------------------------------------------------------------
  // Truncation

  /** Content over 100 characters is cut to its first 100 followed by "...". */
  function Truncate(content: string): (r: string)
    ensures |content| <= 100 ==> r == content
    ensures |content| > 100 ==> |r| == 103 && r[..100] == content[..100] && r[100..] == "..."
  {
    if |content| > 100 then content[..100] + "..." else content
  }

  /** A summary is never longer than 103 characters, and truncating twice is
      truncating once. */
  lemma TruncateIdempotent(content: string)
    ensures |Truncate(content)| <= 103
    ensures Truncate(Truncate(content)) == Truncate(content)
  {
    if |content| > 100 {
      var r := Truncate(content);
      assert r[..100] == content[..100];
      assert Truncate(r) == r[..100] + "...";
    }
  }

  // ---------------------------------------------------------------------
  // Quartile split

  datatype Split<T> = Split(high: seq<T>, low: seq<T>)

  /** Python's `a or b` on integers. */
  function OrElse(a: int, b: int): int
  {
    if a != 0 then a else b
  }

  /** A Python slice bound on a sequence of length `n`: negative bounds count
      from the end, and bounds are clamped into range. */
  function SliceBound(n: nat, i: int): (j: nat)
    ensures j <= n
  {
    if i < 0 then (if n + i < 0 then 0 else n + i)
    else if i > n then n
    else i
  }

  /** `items[:q or 1]` and `items[-q or 1:]` with `q = len(items) // 4`, on a
      non-empty list; both empty for an empty one.  Because `-q or 1` is 1
      when `q` is 0, a list of one to three items has all but its first item
      in the low part.  The two parts never overlap. */
  function Quartiles<T>(items: seq<T>): (r: Split<T>)
    ensures items == [] ==> r.high == [] && r.low == []
    ensures |items| >= 4 ==> r.high == items[..|items| / 4] && r.low == items[|items| - |items| / 4..]
    ensures 1 <= |items| < 4 ==> r.high == items[..1] && r.low == items[1..]
    ensures |r.high| + |r.low| <= |items|
    ensures r.high == items[..|r.high|] && r.low == items[|items| - |r.low|..]
  {
    if items == [] then Split([], [])
    else
      var n := |items|;
      var top := n / 4;
      Split(items[..SliceBound(n, OrElse(top, 1))], items[SliceBound(n, OrElse(-top, 1))..])
  }

  /** On a list sorted best first, everything in the high part scores at least
      as well as everything in the low part. */
  lemma QuartilesOrdered<T>(items: seq<T>, key: T -> real)
    requires SortedDesc(items, key)
    ensures forall i, j :: 0 <= i < |Quartiles(items).high| && 0 <= j < |Quartiles(items).low| ==>
              key(Quartiles(items).high[i]) >= key(Quartiles(items).low[j])
  {
    var r := Quartiles(items);
    var off := |items| - |r.low|;
    forall i, j | 0 <= i < |r.high| && 0 <= j < |r.low|
      ensures key(r.high[i]) >= key(r.low[j])
    {
      assert r.high[i] == items[i];
      assert r.low[j] == items[off + j];
      SortedDescAt(items, key, i, off + j);
    }
  }

  // ---------------------------------------------------------------------
  // Grouping by content and the performance report

  /** The eligible interactions whose text is `c`, in order: the reference
      definition of a group. */
  function Matching(xs: seq<Interaction>, c: string): (m: seq<Interaction>)
    ensures forall i :: 0 <= i < |m| ==> Eligible(m[i]) && ContentOf(m[i]) == c
    decreases |xs|
  {
    if xs == [] then []
    else
      var x := xs[|xs| - 1];
      Matching(xs[..|xs| - 1], c) + (if Eligible(x) && ContentOf(x) == c then [x] else [])
  }

  /** The groups keyed by text, in order of first appearance. */
  function GroupByContent(xs: seq<Interaction>): (g: seq<Entry<string, seq<Interaction>>>)
    ensures DistinctKeys(g)
    ensures forall c :: GetOr(g, c, []) == Matching(xs, c)
    ensures forall c :: Get(g, c).Some? <==> Matching(xs, c) != []
    decreases |xs|
  {
    if xs == [] then []
    else
      var x := xs[|xs| - 1];
      var g := GroupByContent(xs[..|xs| - 1]);
      if Eligible(x) then
        UpdateDistinct(g, ContentOf(x), [], Append(x));
        AddToGroup(g, x)
      else g
  }

  function Append(x: Interaction): seq<Interaction> -> seq<Interaction>
  {
    (m: seq<Interaction>) => m + [x]
  }

  /** `groups[content].append(x)` on the `defaultdict(list)` of groups. */
  function AddToGroup(g: seq<Entry<string, seq<Interaction>>>, x: Interaction): seq<Entry<string, seq<Interaction>>>
  {
    Update(g, ContentOf(x), [], Append(x))
  }

  lemma GroupStep(xs: seq<Interaction>, i: nat)
    requires i < |xs|
    ensures GroupByContent(xs[..i + 1]) ==
              if Eligible(xs[i]) then AddToGroup(GroupByContent(xs[..i]), xs[i]) else GroupByContent(xs[..i])
  {
    assert xs[..i + 1][..i] == xs[..i];
  }

  /** The texts of the eligible interactions, in order. */
  function EligibleContents(xs: seq<Interaction>): seq<string>
    decreases |xs|
  {
    if xs == [] then []
    else
      var x := xs[|xs| - 1];
      EligibleContents(xs[..|xs| - 1]) + (if Eligible(x) then [ContentOf(x)] else [])
  }

  /** The groups are keyed by the texts in order of first appearance. */
  lemma {:induction false} GroupOrder(xs: seq<Interaction>)
    ensures Keys(GroupByContent(xs)) == FirstOccurrences(EligibleContents(xs))
    decreases |xs|
  {
    if xs != [] {
      var front := xs[..|xs| - 1];
      var x := xs[|xs| - 1];
      GroupOrder(front);
      assert xs[..|xs| - 1] == front;
      if Eligible(x) {
        assert GroupByContent(xs) == AddToGroup(GroupByContent(front), x);
        assert EligibleContents(xs) == EligibleContents(front) + [ContentOf(x)];
        UpdateFirstOccurrences(GroupByContent(front), EligibleContents(front), ContentOf(x), [], Append(x));
      } else {
        assert GroupByContent(xs) == GroupByContent(front);
        assert EligibleContents(xs) == EligibleContents(front) + [] == EligibleContents(front);
      }
    }
  }

  datatype ContentStat = ContentStat(
    content: string,
    interactionsCount: nat,
    engagementScore: real,
    platforms: set<string>)

  function ScoreOf(s: ContentStat): real
  {
    s.engagementScore
  }

  function Platforms(xs: seq<Interaction>): set<string>
  {
    set i | 0 <= i < |xs| :: xs[i].platform
  }

  ghost predicate GroupsSuccessful(groups: seq<Entry<string, seq<Interaction>>>)
  {
    forall i :: 0 <= i < |groups| ==> AllSuccessful(groups[i].value)
  }

  /** One summary per group of at least two interactions, in group order. */
  function Performance(groups: seq<Entry<string, seq<Interaction>>>): (r: seq<ContentStat>)
    ensures |r| <= |groups|
    ensures forall i :: 0 <= i < |r| ==> r[i].interactionsCount >= 2 && r[i].engagementScore <= 18.0
    ensures GroupsSuccessful(groups) ==> forall i :: 0 <= i < |r| ==> 10.0 <= r[i].engagementScore
    decreases |groups|
  {
    if groups == [] then []
    else
      var g := groups[|groups| - 1];
      assert GroupsSuccessful(groups) ==> GroupsSuccessful(groups[..|groups| - 1]);
      var rest := Performance(groups[..|groups| - 1]);
      if |g.value| >= 2 then rest + [Summary(g)] else rest
  }

  /** The summary of one group: its truncated text, its size, its mean
      engagement score and the platforms it was seen on. */
  function Summary(g: Entry<string, seq<Interaction>>): (s: ContentStat)
    ensures s.interactionsCount == |g.value|
    ensures |s.content| <= 103 && (|g.key| <= 100 ==> s.content == g.key)
    ensures 0.0 <= s.engagementScore <= 18.0
    ensures g.value != [] && AllSuccessful(g.value) ==> 10.0 <= s.engagementScore
    ensures forall pl :: pl in s.platforms <==> exists i :: 0 <= i < |g.value| && g.value[i].platform == pl
  {
    ContentStat(Truncate(g.key), |g.value|, EngagementScore(g.value), Platforms(g.value))
  }

  lemma PerformanceStep(groups: seq<Entry<string, seq<Interaction>>>, k: nat)
    requires k < |groups|
    ensures Performance(groups[..k + 1]) ==
              Performance(groups[..k]) + (if |groups[k].value| >= 2 then [Summary(groups[k])] else [])
  {
    assert groups[..k + 1][..k] == groups[..k];
  }

  /** A summary is reported exactly for each group of at least two
      interactions, and it is that group's summary. */
  lemma {:induction false} PerformanceMembers(groups: seq<Entry<string, seq<Interaction>>>, s: ContentStat)
    ensures s in Performance(groups) <==>
              exists i :: 0 <= i < |groups| && |groups[i].value| >= 2 && s == Summary(groups[i])
    decreases |groups|
  {
    if groups != [] {
      var n := |groups| - 1;
      var front := groups[..n];
      var g := groups[n];
      var tail := if |g.value| >= 2 then [Summary(g)] else [];
      PerformanceMembers(front, s);
      PerformanceStep(groups, n);
      assert groups[..n + 1] == groups;
      assert Performance(groups) == Performance(front) + tail;
      if s in Performance(groups) {
        if s in Performance(front) {
          var i :| 0 <= i < |front| && |front[i].value| >= 2 && s == Summary(front[i]);
          assert front[i] == groups[i];
        } else {
          assert s in tail;
          assert |groups[n].value| >= 2 && s == Summary(groups[n]);
        }
      }
      if exists i :: 0 <= i < |groups| && |groups[i].value| >= 2 && s == Summary(groups[i]) {
        var i :| 0 <= i < |groups| && |groups[i].value| >= 2 && s == Summary(groups[i]);
        if i < n {
          assert front[i] == groups[i];
        } else {
          assert i == n && tail == [s];
        }
      }
    }
  }

  /** Every group holds only successful interactions. */
  lemma GroupsAreSuccessful(xs: seq<Interaction>)
    ensures GroupsSuccessful(GroupByContent(xs))
  {
    var g := GroupByContent(xs);
    forall i | 0 <= i < |g|
      ensures AllSuccessful(g[i].value)
    {
      GetAt(g, i);
      assert g[i].value == GetOr(g, g[i].key, []);
    }
  }

  /** The high- and low-performing content. */
  function ContentPerformance(xs: seq<Interaction>): (r: Split<ContentStat>)
    ensures |r.high| + |r.low| <= |Performance(GroupByContent(xs))|
    ensures Performance(GroupByContent(xs)) == [] ==> r.high == [] && r.low == []
    ensures Performance(GroupByContent(xs)) != [] ==> |r.high| >= 1
  {
    Quartiles(SortDesc(Performance(GroupByContent(xs)), ScoreOf))
  }

  ghost predicate Reportable(s: ContentStat)
  {
    s.interactionsCount >= 2 && 10.0 <= s.engagementScore <= 18.0
  }

  ghost predicate AllReportable(s: seq<ContentStat>)
  {
    forall k :: 0 <= k < |s| ==> Reportable(s[k])
  }

  /** Every reported item had at least two successful interactions, so its
      score lies between 10 and 18, and nothing in the high part scores below
      anything in the low part. */
  lemma ContentPerformanceBounds(xs: seq<Interaction>)
    ensures AllReportable(ContentPerformance(xs).high) && AllReportable(ContentPerformance(xs).low)
    ensures forall i, j :: 0 <= i < |ContentPerformance(xs).high| && 0 <= j < |ContentPerformance(xs).low| ==>
              ContentPerformance(xs).high[i].engagementScore >= ContentPerformance(xs).low[j].engagementScore
  {
    var perf := Performance(GroupByContent(xs));
    PerformanceReportable(xs);
    SplitReportable(SortDesc(perf, ScoreOf));
  }

  /** The summaries of the groups, once sorted, are all reportable. */
  lemma PerformanceReportable(xs: seq<Interaction>)
    ensures AllReportable(SortDesc(Performance(GroupByContent(xs)), ScoreOf))
  {
    var perf := Performance(GroupByContent(xs));
    GroupsAreSuccessful(xs);
    assert forall s :: s in perf ==> Reportable(s);
    SortMembers(perf, ScoreOf);
  }

  /** Both parts of the split of a sorted, reportable list are reportable and
      ordered against each other. */
  lemma SplitReportable(sorted: seq<ContentStat>)
    requires AllReportable(sorted)
    ensures SortedDesc(sorted, ScoreOf) ==>
              forall i, j :: 0 <= i < |Quartiles(sorted).high| && 0 <= j < |Quartiles(sorted).low| ==>
                Quartiles(sorted).high[i].engagementScore >= Quartiles(sorted).low[j].engagementScore
    ensures AllReportable(Quartiles(sorted).high) && AllReportable(Quartiles(sorted).low)
  {
    var r := Quartiles(sorted);
    forall i | 0 <= i < |r.high|
      ensures Reportable(r.high[i])
    {
      assert r.high[i] == sorted[i];
    }
    forall j | 0 <= j < |r.low|
      ensures Reportable(r.low[j])
    {
      assert r.low[j] == sorted[|sorted| - |r.low| + j];
    }
    if SortedDesc(sorted, ScoreOf) {
      QuartilesOrdered(sorted, ScoreOf);
    }
  }

  // ---------------------------------------------------------------------
  // Hashtags

  /** How often `t` occurs in `tags`. */
  function CountOf(tags: seq<string>, t: string): nat
    decreases |tags|
  {
    if tags == [] then 0
    else CountOf(tags[..|tags| - 1], t) + (if tags[|tags| - 1] == t then 1 else 0)
  }

  /** How often `t` is used across the eligible interactions: the reference
      definition of a hashtag's usage count. */
  function Occurrences(xs: seq<Interaction>, t: string): nat
    decreases |xs|
  {
    if xs == [] then 0
    else
      var x := xs[|xs| - 1];
      Occurrences(xs[..|xs| - 1], t) + (if Eligible(x) then CountOf(x.hashtags, t) else 0)
  }

  ghost predicate AllOnes(s: seq<int>)
  {
    forall i :: 0 <= i < |s| ==> s[i] == 1
  }

  ghost predicate ScoresAreOnes(p: seq<Entry<string, seq<int>>>)
  {
    forall t :: AllOnes(GetOr(p, t, []))
  }

  /** Append `score` to the list of each tag in `tags`, one per occurrence. */
  function AddTags(p: seq<Entry<string, seq<int>>>, tags: seq<string>, score: int): (r: seq<Entry<string, seq<int>>>)
    ensures DistinctKeys(p) ==> DistinctKeys(r)
    ensures forall t :: |GetOr(r, t, [])| == |GetOr(p, t, [])| + CountOf(tags, t)
    ensures forall t :: Get(r, t).Some? <==> Get(p, t).Some? || CountOf(tags, t) > 0
    decreases |tags|
  {
    if tags == [] then p
    else
      var q := AddTags(p, tags[..|tags| - 1], score);
      var tag := tags[|tags| - 1];
      var append := AppendScore(score);
      var r := Update(q, tag, [], append);
      assert DistinctKeys(p) ==> DistinctKeys(r) by {
        if DistinctKeys(p) {
          UpdateDistinct(q, tag, [], append);
        }
      }
      assert forall t :: |GetOr(r, t, [])| == |GetOr(q, t, [])| + (if t == tag then 1 else 0) by {
        forall t
          ensures |GetOr(r, t, [])| == |GetOr(q, t, [])| + (if t == tag then 1 else 0)
        {
          if t == tag {
            assert GetOr(r, t, []) == GetOr(q, t, []) + [score];
          } else {
            assert Get(r, t) == Get(q, t);
          }
        }
      }
      r
  }

  function AppendScore(score: int): seq<int> -> seq<int>
  {
    (s: seq<int>) => s + [score]
  }

  /** Appending ones keeps every list all ones. */
  lemma {:induction false} AddTagsOnes(p: seq<Entry<string, seq<int>>>, tags: seq<string>)
    requires ScoresAreOnes(p)
    ensures ScoresAreOnes(AddTags(p, tags, 1))
    decreases |tags|
  {
    if tags != [] {
      var q := AddTags(p, tags[..|tags| - 1], 1);
      AddTagsOnes(p, tags[..|tags| - 1]);
      var tag := tags[|tags| - 1];
      var r := AddTags(p, tags, 1);
      assert r == Update(q, tag, [], AppendScore(1));
      forall t
        ensures AllOnes(GetOr(r, t, []))
      {
        if t == tag {
          assert GetOr(r, t, []) == GetOr(q, t, []) + [1];
        } else {
          assert Get(r, t) == Get(q, t);
        }
      }
    }
  }

  /** The per-hashtag score lists, in order of first use. */
  function HashtagScores(xs: seq<Interaction>): (p: seq<Entry<string, seq<int>>>)
    ensures DistinctKeys(p)
    ensures forall t :: |GetOr(p, t, [])| == Occurrences(xs, t)
    ensures forall t :: Get(p, t).Some? <==> Occurrences(xs, t) > 0
    ensures ScoresAreOnes(p)
    decreases |xs|
  {
    if xs == [] then []
    else
      var x := xs[|xs| - 1];
      var p := HashtagScores(xs[..|xs| - 1]);
      var score := if x.success then 1 else 0;
      if Eligible(x) then
        AddTagsOnes(p, x.hashtags);
        AddTags(p, x.hashtags, score)
      else p
  }

  function Sum(s: seq<int>): int
    decreases |s|
  {
    if s == [] then 0 else Sum(s[..|s| - 1]) + s[|s| - 1]
  }

  function Mean(s: seq<int>): real
    requires |s| > 0
  {
    Sum(s) as real / |s| as real
  }

  /** Every score is 1, so every hashtag's mean performance is 1. */
  lemma {:induction false} SumOfOnes(s: seq<int>)
    requires AllOnes(s)
    ensures Sum(s) == |s|
    decreases |s|
  {
    if s != [] {
      SumOfOnes(s[..|s| - 1]);
    }
  }

  datatype HashtagStat = HashtagStat(hashtag: string, usageCount: nat, avgPerformance: real)

  function AvgOf(h: HashtagStat): real
  {
    h.avgPerformance
  }

  /** The entries of hashtags used at least three times, in the order of `p`. */
  function Qualifying(p: seq<Entry<string, seq<int>>>): (q: seq<Entry<string, seq<int>>>)
    ensures forall e :: e in q ==> e in p && |e.value| >= 3
    ensures forall e :: e in p && |e.value| >= 3 ==> e in q
    decreases |p|
  {
    if p == [] then []
    else
      var e := p[|p| - 1];
      assert p == p[..|p| - 1] + [e];
      Qualifying(p[..|p| - 1]) + (if |e.value| >= 3 then [e] else [])
  }

  function StatOf(e: Entry<string, seq<int>>): HashtagStat
    requires |e.value| > 0
  {
    HashtagStat(e.key, |e.value|, Mean(e.value))
  }

  /** The statistics of the qualifying hashtags. */
  function Effective(p: seq<Entry<string, seq<int>>>): (r: seq<HashtagStat>)
    ensures |r| == |Qualifying(p)|
    ensures forall i :: 0 <= i < |r| ==>
              r[i].hashtag == Qualifying(p)[i].key && r[i].usageCount == |Qualifying(p)[i].value| >= 3
  {
    var q := Qualifying(p);
    assert forall i :: 0 <= i < |q| ==> q[i] in q;
    seq(|q|, i requires 0 <= i < |q| => StatOf(q[i]))
  }

  /** The hashtag report: the effective hashtags sorted by mean performance,
      best first, at most ten of them. */
  function AnalyzeHashtags(xs: seq<Interaction>): (r: seq<HashtagStat>)
    ensures |r| == Min(10, |Effective(HashtagScores(xs))|)
    ensures SortedDesc(r, AvgOf)
    ensures forall h :: h in r ==> h in Effective(HashtagScores(xs))
  {
    var e := Effective(HashtagScores(xs));
    var sorted := SortDesc(e, AvgOf);
    PrefixSorted(sorted, Min(10, |sorted|), AvgOf);
    SortMembers(e, AvgOf);
    sorted[..Min(10, |sorted|)]
  }

  /** Each qualifying entry is the whole score list of its hashtag: used as
      often as the hashtag occurs, and all ones. */
  lemma QualifyingEntry(xs: seq<Interaction>, e: Entry<string, seq<int>>)
    requires e in Qualifying(HashtagScores(xs))
    ensures |e.value| >= 3 && |e.value| == Occurrences(xs, e.key)
    ensures Mean(e.value) == 1.0
  {
    var p := HashtagScores(xs);
    assert e in p;
    GetIn(p, e);
    assert |GetOr(p, e.key, [])| == Occurrences(xs, e.key);
    assert AllOnes(GetOr(p, e.key, []));
    MeanOfOnes(e.value);
  }

  lemma MeanOfOnes(s: seq<int>)
    requires |s| > 0 && AllOnes(s)
    ensures Mean(s) == 1.0
  {
    SumOfOnes(s);
    var n := |s| as real;
    assert Mean(s) == n / n;
  }


  /** The hashtag report: at most ten entries, each used at least three
      times with its usage count equal to its number of occurrences, all with
      mean 1, so the sort leaves them in order of first use. */
  lemma HashtagReport(xs: seq<Interaction>)
    ensures |AnalyzeHashtags(xs)| <= 10
    ensures SortedDesc(AnalyzeHashtags(xs), AvgOf)
    ensures forall i :: 0 <= i < |AnalyzeHashtags(xs)| ==>
              AnalyzeHashtags(xs)[i].usageCount >= 3 &&
              AnalyzeHashtags(xs)[i].usageCount == Occurrences(xs, AnalyzeHashtags(xs)[i].hashtag) &&
              AnalyzeHashtags(xs)[i].avgPerformance == 1.0
    ensures var e := Effective(HashtagScores(xs)); AnalyzeHashtags(xs) == e[..Min(10, |e|)]
  {
    var q := Qualifying(HashtagScores(xs));
    var e := Effective(HashtagScores(xs));
    forall i | 0 <= i < |e|
      ensures e[i].usageCount >= 3 && e[i].usageCount == Occurrences(xs, e[i].hashtag)
      ensures e[i].avgPerformance == 1.0
    {
      QualifyingEntry(xs, q[i]);
    }
    EqualKeysKeepOrder(e, AvgOf, 1.0);
    PrefixSorted(e, Min(10, |e|), AvgOf);
  }

  /** The hashtags of the eligible interactions, in order of use. */
  function AllTags(xs: seq<Interaction>): seq<string>
    decreases |xs|
  {
    if xs == [] then []
    else
      var x := xs[|xs| - 1];
      AllTags(xs[..|xs| - 1]) + (if Eligible(x) then x.hashtags else [])
  }

  lemma AddTagsStep(p: seq<Entry<string, seq<int>>>, tags: seq<string>, score: int)
    requires tags != []
    ensures AddTags(p, tags, score) == Update(AddTags(p, tags[..|tags| - 1], score), tags[|tags| - 1], [], AppendScore(score))
  {
  }

  lemma SplitLast<T>(s: seq<T>, t: seq<T>)
    requires t != []
    ensures s + t == (s + t[..|t| - 1]) + [t[|t| - 1]]
  {
    assert t == t[..|t| - 1] + [t[|t| - 1]];
  }

  lemma {:induction false} AddTagsOrder(p: seq<Entry<string, seq<int>>>, ks: seq<string>, tags: seq<string>, score: int)
    requires Keys(p) == FirstOccurrences(ks)
    ensures Keys(AddTags(p, tags, score)) == FirstOccurrences(ks + tags)
    decreases |tags|
  {
    if tags == [] {
      assert ks + tags == ks;
    } else {
      var front := tags[..|tags| - 1];
      var tag := tags[|tags| - 1];
      var q := AddTags(p, front, score);
      AddTagsOrder(p, ks, front, score);
      AddTagsStep(p, tags, score);
      UpdateFirstOccurrences(q, ks + front, tag, [], AppendScore(score));
      SplitLast(ks, tags);
    }
  }

  /** The score lists are keyed by hashtag in order of first use. */
  lemma {:induction false} HashtagOrder(xs: seq<Interaction>)
    ensures Keys(HashtagScores(xs)) == FirstOccurrences(AllTags(xs))
    decreases |xs|
  {
    if xs != [] {
      var front := xs[..|xs| - 1];
      var x := xs[|xs| - 1];
      HashtagOrder(front);
      assert xs[..|xs| - 1] == front;
      if Eligible(x) {
        var score := if x.success then 1 else 0;
        assert HashtagScores(xs) == AddTags(HashtagScores(front), x.hashtags, score);
        assert AllTags(xs) == AllTags(front) + x.hashtags;
        AddTagsOrder(HashtagScores(front), AllTags(front), x.hashtags, score);
      } else {
        assert HashtagScores(xs) == HashtagScores(front);
        assert AllTags(xs) == AllTags(front) + [] == AllTags(front);
      }
    }
  }

  /** The hashtags of `ts` used at least three times, in the order of `ts`. */
  function Frequent(ts: seq<string>, xs: seq<Interaction>): seq<string>
    decreases |ts|
  {
    if ts == [] then []
    else
      var t := ts[|ts| - 1];
      Frequent(ts[..|ts| - 1], xs) + (if Occurrences(xs, t) >= 3 then [t] else [])
  }

  function Tags(r: seq<HashtagStat>): (ts: seq<string>)
    ensures |ts| == |r|
    ensures forall i :: 0 <= i < |r| ==> ts[i] == r[i].hashtag
  {
    seq(|r|, i requires 0 <= i < |r| => r[i].hashtag)
  }

  lemma QualifyingLast(p: seq<Entry<string, seq<int>>>)
    requires p != []
    ensures Qualifying(p) ==
              Qualifying(p[..|p| - 1]) + (if |p[|p| - 1].value| >= 3 then [p[|p| - 1]] else [])
  {
  }

  lemma QualifyingKeysStep(p: seq<Entry<string, seq<int>>>, xs: seq<Interaction>)
    requires p != []
    requires Keys(Qualifying(p[..|p| - 1])) == Frequent(Keys(p[..|p| - 1]), xs)
    requires |p[|p| - 1].value| == Occurrences(xs, p[|p| - 1].key)
    ensures Keys(Qualifying(p)) == Frequent(Keys(p), xs)
  {
    var e := p[|p| - 1];
    var ks := Keys(p);
    assert ks[..|ks| - 1] == Keys(p[..|p| - 1]);
    var tail := if |e.value| >= 3 then [e] else [];
    QualifyingLast(p);
    KeysAppend(Qualifying(p[..|p| - 1]), tail);
  }

  lemma {:induction false} QualifyingKeys(p: seq<Entry<string, seq<int>>>, xs: seq<Interaction>)
    requires forall i :: 0 <= i < |p| ==> |p[i].value| == Occurrences(xs, p[i].key)
    ensures Keys(Qualifying(p)) == Frequent(Keys(p), xs)
    decreases |p|
  {
    if p != [] {
      var front := p[..|p| - 1];
      forall i | 0 <= i < |front|
        ensures |front[i].value| == Occurrences(xs, front[i].key)
      {
        assert front[i] == p[i];
      }
      QualifyingKeys(front, xs);
      QualifyingKeysStep(p, xs);
    }
  }

  /** Each score list is as long as its hashtag's usage count. */
  lemma ScoreLengths(xs: seq<Interaction>)
    ensures var p := HashtagScores(xs);
            forall i :: 0 <= i < |p| ==> |p[i].value| == Occurrences(xs, p[i].key)
  {
    var p := HashtagScores(xs);
    forall i | 0 <= i < |p|
      ensures |p[i].value| == Occurrences(xs, p[i].key)
    {
      GetAt(p, i);
      assert GetOr(p, p[i].key, []) == p[i].value;
    }
  }

  lemma EffectiveTags(p: seq<Entry<string, seq<int>>>, m: nat)
    requires m <= |Effective(p)|
    ensures Tags(Effective(p)[..m]) == Keys(Qualifying(p))[..m]
  {
  }

  /** The reported hashtags are the first ten of those used at least three
      times, in order of first use. */
  lemma HashtagReportOrder(xs: seq<Interaction>)
    ensures var f := Frequent(FirstOccurrences(AllTags(xs)), xs);
            Tags(AnalyzeHashtags(xs)) == f[..Min(10, |f|)]
  {
    var p := HashtagScores(xs);
    var e := Effective(p);
    HashtagReport(xs);
    ScoreLengths(xs);
    QualifyingKeys(p, xs);
    HashtagOrder(xs);
    EffectiveTags(p, Min(10, |e|));
  }

  /** Conversely, when at most ten hashtags qualify, every hashtag used at
      least three times is reported. */
  lemma HashtagReportComplete(xs: seq<Interaction>, t: string)
    requires Occurrences(xs, t) >= 3
    requires |Effective(HashtagScores(xs))| <= 10
    ensures exists i :: 0 <= i < |AnalyzeHashtags(xs)| && AnalyzeHashtags(xs)[i].hashtag == t
  {
    var p := HashtagScores(xs);
    var q := Qualifying(p);
    HashtagReport(xs);
    var j :| 0 <= j < |p| && p[j] == Entry(t, Get(p, t).value);
    assert p[j] in q;
    var i :| 0 <= i < |q| && q[i] == p[j];
    assert AnalyzeHashtags(xs)[i].hashtag == t;
  }

  // ---------------------------------------------------------------------
  // The analysis as the engine runs it

    /** The grouping loop: successful interactions with content, keyed by
      their text in order of first appearance. */
  method GroupInteractions(interactions: seq<Interaction>) returns (groups: seq<Entry<string, seq<Interaction>>>)
    ensures groups == GroupByContent(interactions)
  {
    groups := [];
    var i := 0;
    while i < |interactions|
      invariant 0 <= i <= |interactions|
      invariant groups == GroupByContent(interactions[..i])
    {
      var x := interactions[i];
      GroupStep(interactions, i);
      if ContentOf(x) != "" && x.success {
        groups := AddToGroup(groups, x);
      }
      i := i + 1;
    }
    assert interactions[..i] == interactions;
  }

  /** The summary loop: one entry per group of at least two interactions. */
  method SummarizeGroups(groups: seq<Entry<string, seq<Interaction>>>) returns (performance: seq<ContentStat>)
    ensures performance == Performance(groups)
  {
    performance := [];
    var k := 0;
    while k < |groups|
      invariant 0 <= k <= |groups|
      invariant performance == Performance(groups[..k])
    {
      var g := groups[k];
      PerformanceStep(groups, k);
      if |g.value| >= 2 {
        var score := CalculateEngagementScore(g.value);
        performance := performance + [ContentStat(Truncate(g.key), |g.value|, score, Platforms(g.value))];
      }
      k := k + 1;
    }
    assert groups[..k] == groups;
  }

/** Group the eligible interactions, summarise each group of two or more,
      sort the summaries by score and split them; then the hashtag report. */
  method AnalyzeContentPerformance(interactions: seq<Interaction>)
    returns (high: seq<ContentStat>, low: seq<ContentStat>, hashtags: seq<HashtagStat>)
    ensures Split(high, low) == ContentPerformance(interactions)
    ensures hashtags == AnalyzeHashtags(interactions)
    ensures forall i, j :: 0 <= i < |high| && 0 <= j < |low| ==> high[i].engagementScore >= low[j].engagementScore
  {
    var groups := GroupInteractions(interactions);
    var performance := SummarizeGroups(groups);
    var sorted := SortDesc(performance, ScoreOf);
    var split := Quartiles(sorted);
    high, low := split.high, split.low;
    hashtags := AnalyzeHashtags(interactions);
    ContentPerformanceBounds(interactions);
  }
}
