/**
 * Sentiment statistics over time-bucketed answer counts: the weighted
 * average, the trend between the earlier and the later half of the points,
 * and the combined statistics record.
 */
module SentimentUtils {
  import opened Domain
  import ChartUtils

  /** One observation: a date (a timestamp) and the numbers of happy, neutral
      and sad answers. A count the caller left out is None and counts as 0. */
  datatype DataPoint = DataPoint(date: int, happy: Option<int>, neutral: Option<int>, sad: Option<int>)

  /** `value || 0` */
  function OrZero(v: Option<int>): int {
    if v.Some? then v.value else 0
  }

  function Responses(p: DataPoint): int {
    OrZero(p.happy) + OrZero(p.neutral) + OrZero(p.sad)
  }

  function Weighted(p: DataPoint): int {
    OrZero(p.happy) * ChartUtils.HappyWeight + OrZero(p.neutral) * ChartUtils.NeutralWeight
    + OrZero(p.sad) * ChartUtils.SadWeight
  }

  predicate NonNegative(data: seq<DataPoint>) {
    forall k :: 0 <= k < |data| ==>
      OrZero(data[k].happy) >= 0 && OrZero(data[k].neutral) >= 0 && OrZero(data[k].sad) >= 0
  }

  /** The `totalResponses` accumulator of the reduce, folded left to right. */
  function TotalResponses(data: seq<DataPoint>): int {
    if data == [] then 0 else TotalResponses(data[..|data| - 1]) + Responses(data[|data| - 1])
  }

  /** The `totalWeightedSum` accumulator of the reduce, folded left to right. */
  function TotalWeighted(data: seq<DataPoint>): int {
    if data == [] then 0 else TotalWeighted(data[..|data| - 1]) + Weighted(data[|data| - 1])
  }

  /** `calculateAverageSentiment`: the weighted sum over all points divided by
      the number of answers over all points; 0 when there are none. */
  function AverageSentiment(data: seq<DataPoint>): (avg: real)
    ensures TotalResponses(data) <= 0 ==> avg == 0.0
    ensures TotalResponses(data) > 0 ==> avg * TotalResponses(data) as real == TotalWeighted(data) as real
  {
    if |data| == 0 then 0.0
    else if TotalResponses(data) > 0 then TotalWeighted(data) as real / TotalResponses(data) as real
    else 0.0
  }

  /** With non-negative counts, each answer weighs between 1 and 3. */
  lemma {:induction false} WeightedBetween(data: seq<DataPoint>)
    requires NonNegative(data)
    ensures 0 <= TotalResponses(data) <= TotalWeighted(data) <= 3 * TotalResponses(data)
  {
    if data != [] {
      var init := data[..|data| - 1];
      assert NonNegative(init) by {
        forall k | 0 <= k < |init| ensures OrZero(init[k].happy) >= 0 && OrZero(init[k].neutral) >= 0 && OrZero(init[k].sad) >= 0 {
          assert init[k] == data[k];
        }
      }
      WeightedBetween(init);
    }
  }

  /** The average of points with at least one answer lies in [1, 3]. */
  lemma AverageInRange(data: seq<DataPoint>)
    requires NonNegative(data)
    requires TotalResponses(data) > 0
    ensures 1.0 <= AverageSentiment(data) <= 3.0
  {
    WeightedBetween(data);
    var avg, r, w := AverageSentiment(data), TotalResponses(data) as real, TotalWeighted(data) as real;
    assert avg * r == w;
    assert 1.0 * r <= w <= 3.0 * r;
    CancelPositive(avg, r, w, 1.0, 3.0);
  }

  lemma {:induction false} TotalsConcat(a: seq<DataPoint>, b: seq<DataPoint>)
    ensures TotalResponses(a + b) == TotalResponses(a) + TotalResponses(b)
    ensures TotalWeighted(a + b) == TotalWeighted(a) + TotalWeighted(b)
    decreases |b|
  {
    if b == [] {
      assert a + b == a;
    } else {
      assert (a + b)[..|a + b| - 1] == a + b[..|b| - 1];
      TotalsConcat(a, b[..|b| - 1]);
    }
  }

  /** The totals, and so the average, do not depend on the order of the points. */
  lemma {:induction false} TotalsPermutation(a: seq<DataPoint>, b: seq<DataPoint>)
    requires multiset(a) == multiset(b)
    ensures TotalResponses(a) == TotalResponses(b)
    ensures TotalWeighted(a) == TotalWeighted(b)
    ensures AverageSentiment(a) == AverageSentiment(b)
    decreases |a|
  {
    if a == [] {
      assert |b| == |multiset(b)| == 0;
    } else {
      var init, x := a[..|a| - 1], a[|a| - 1];
      assert a == init + [x];
      assert multiset(init) == multiset(a) - multiset{x};
      assert x in multiset(b);
      var k :| 0 <= k < |b| && b[k] == x;
      RemoveOne(b, k);
      TotalsPermutation(init, b[..k] + b[k + 1..]);
      TotalsConcat(init, [x]);
      assert [x][..0] == [];
    }
  }

  /** Taking the point at index `k` out of `b` takes it out of the multiset
      and its answers out of the totals. */
  lemma RemoveOne(b: seq<DataPoint>, k: nat)
    requires k < |b|
    ensures multiset(b[..k] + b[k + 1..]) == multiset(b) - multiset{b[k]}
    ensures TotalResponses(b) == TotalResponses(b[..k] + b[k + 1..]) + Responses(b[k])
    ensures TotalWeighted(b) == TotalWeighted(b[..k] + b[k + 1..]) + Weighted(b[k])
  {
    var before, rest := b[..k], b[k..];
    assert b == before + rest;
    assert rest == [b[k]] + b[k + 1..];
    SplitMultiset(before, rest, b[k + 1..]);
    SplitTotals(before, rest, b[k + 1..]);
  }

  lemma SplitMultiset(before: seq<DataPoint>, rest: seq<DataPoint>, after: seq<DataPoint>)
    requires |rest| > 0 && rest == [rest[0]] + after
    ensures multiset(before + after) == multiset(before + rest) - multiset{rest[0]}
  {
    assert multiset(before + rest) == multiset(before) + multiset{rest[0]} + multiset(after);
  }

  /** Splitting off the first point of `rest` splits off its answers. */
  lemma SplitTotals(before: seq<DataPoint>, rest: seq<DataPoint>, after: seq<DataPoint>)
    requires |rest| > 0 && rest == [rest[0]] + after
    ensures TotalResponses(before + rest) == TotalResponses(before + after) + Responses(rest[0])
    ensures TotalWeighted(before + rest) == TotalWeighted(before + after) + Weighted(rest[0])
  {
    TotalsConcat(before, rest);
    TotalsConcat([rest[0]], after);
    TotalsConcat(before, after);
    assert [rest[0]][..0] == [];
  }

  predicate SortedByDate(s: seq<DataPoint>) {
    forall i, j :: 0 <= i < j < |s| ==> s[i].date <= s[j].date
  }

  predicate DistinctDates(s: seq<DataPoint>) {
    forall i, j :: 0 <= i < j < |s| ==> s[i].date != s[j].date
  }

  /** Puts `x` before the first point of `s` that is not earlier than it. */
  function Insert(x: DataPoint, s: seq<DataPoint>): (r: seq<DataPoint>)
    ensures |r| == |s| + 1
    ensures multiset(r) == multiset(s) + multiset{x}
  {
    if s == [] then [x]
    else if x.date <= s[0].date then [x] + s
    else
      assert s == [s[0]] + s[1..];
      [s[0]] + Insert(x, s[1..])
  }

  lemma {:induction false} InsertSorted(x: DataPoint, s: seq<DataPoint>)
    requires SortedByDate(s)
    ensures SortedByDate(Insert(x, s))
  {
    if s != [] && x.date > s[0].date {
      var t := Insert(x, s[1..]);
      InsertSorted(x, s[1..]);
      InsertKeepsLowerBound(x, s[1..], s[0].date);
      assert Insert(x, s) == [s[0]] + t;
    }
  }

  /** Inserting a point no earlier than `d` among points no earlier than `d`
      gives points no earlier than `d`. */
  lemma {:induction false} InsertKeepsLowerBound(x: DataPoint, s: seq<DataPoint>, d: int)
    requires d <= x.date
    requires forall k :: 0 <= k < |s| ==> d <= s[k].date
    ensures forall k :: 0 <= k < |Insert(x, s)| ==> d <= Insert(x, s)[k].date
  {
    if s != [] && x.date > s[0].date {
      InsertKeepsLowerBound(x, s[1..], d);
    }
  }

  /** The copy `[...trendData].sort(by date)`: a stable sort, ascending by date. */
  function SortByDate(s: seq<DataPoint>): (r: seq<DataPoint>)
    ensures |r| == |s|
    ensures multiset(r) == multiset(s)
    ensures SortedByDate(r)
  {
    if s == [] then []
    else
      assert s == [s[0]] + s[1..];
      var t := SortByDate(s[1..]);
      InsertSorted(s[0], t);
      Insert(s[0], t)
  }

  /** The points of `s` dated `d`, in their order in `s`. */
  function WithDate(s: seq<DataPoint>, d: int): (r: seq<DataPoint>)
    ensures |r| <= |s|
    ensures forall p :: p in r <==> p in s && p.date == d
  {
    if s == [] then []
    else
      assert s == [s[0]] + s[1..];
      (if s[0].date == d then [s[0]] else []) + WithDate(s[1..], d)
  }

  /** Inserting `x` puts it in front of every point already there with the
      same date. */
  lemma {:induction false} InsertBeforeEqualDates(x: DataPoint, s: seq<DataPoint>, d: int)
    ensures WithDate(Insert(x, s), d) == (if x.date == d then [x] else []) + WithDate(s, d)
    decreases |s|
  {
    if s != [] && x.date > s[0].date {
      InsertBeforeEqualDates(x, s[1..], d);
      assert ([s[0]] + Insert(x, s[1..]))[1..] == Insert(x, s[1..]);
    }
  }

  /** The sort is stable: points with the same date keep their relative order. */
  lemma {:induction false} SortIsStable(s: seq<DataPoint>, d: int)
    ensures WithDate(SortByDate(s), d) == WithDate(s, d)
    decreases |s|
  {
    if s != [] {
      SortIsStable(s[1..], d);
      InsertBeforeEqualDates(s[0], SortByDate(s[1..]), d);
    }
  }

  /** Inserting a point whose date no other point has keeps dates distinct. */
  lemma {:induction false} InsertKeepsDatesDistinct(x: DataPoint, s: seq<DataPoint>)
    requires DistinctDates(s)
    requires forall k :: 0 <= k < |s| ==> s[k].date != x.date
    ensures DistinctDates(Insert(x, s))
  {
    if s != [] && x.date > s[0].date {
      InsertKeepsDatesDistinct(x, s[1..]);
      var t := Insert(x, s[1..]);
      forall k | 0 <= k < |t| ensures t[k].date != s[0].date {
        assert t[k] in multiset(s[1..]) + multiset{x};
      }
    }
  }

  lemma {:induction false} SortKeepsDatesDistinct(s: seq<DataPoint>)
    requires DistinctDates(s)
    ensures DistinctDates(SortByDate(s))
  {
    if s != [] {
      SortKeepsDatesDistinct(s[1..]);
      var t := SortByDate(s[1..]);
      forall k | 0 <= k < |t| ensures t[k].date != s[0].date {
        assert t[k] in multiset(s[1..]);
      }
      InsertKeepsDatesDistinct(s[0], t);
    }
  }

  /** Two date-sorted sequences of the same points, with no date repeated,
      are equal. */
  lemma {:induction false} SortedUnique(a: seq<DataPoint>, b: seq<DataPoint>)
    requires SortedByDate(a) && SortedByDate(b)
    requires multiset(a) == multiset(b)
    requires DistinctDates(a)
    ensures a == b
  {
    if a == [] {
      assert |b| == |multiset(b)| == 0;
    } else {
      SortedHeadsEqual(a, b);
      TailsSameMultiset(a, b);
      SortedUnique(a[1..], b[1..]);
    }
  }

  lemma SortedHeadsEqual(a: seq<DataPoint>, b: seq<DataPoint>)
    requires SortedByDate(a) && SortedByDate(b)
    requires multiset(a) == multiset(b)
    requires DistinctDates(a)
    requires a != []
    ensures b != [] && a[0] == b[0]
  {
    assert a[0] in multiset(b);
    assert b != [];
    assert b[0] in multiset(a);
    var j :| 0 <= j < |b| && b[j] == a[0];
    var i :| 0 <= i < |a| && a[i] == b[0];
    assert a[0].date <= a[i].date == b[0].date <= b[j].date == a[0].date;
  }

  lemma TailsSameMultiset(a: seq<DataPoint>, b: seq<DataPoint>)
    requires a != [] && b != [] && a[0] == b[0]
    requires multiset(a) == multiset(b)
    ensures multiset(a[1..]) == multiset(b[1..])
  {
    assert a == [a[0]] + a[1..] && b == [b[0]] + b[1..];
    assert multiset(a[1..]) == multiset(a) - multiset{a[0]};
    assert multiset(b[1..]) == multiset(b) - multiset{b[0]};
  }

  /** The two halves of the trend: the date-sorted copy split at ⌊n/2⌋. */
  function Halves(data: seq<DataPoint>): (h: (seq<DataPoint>, seq<DataPoint>))
    ensures h.0 + h.1 == SortByDate(data)
    ensures multiset(h.0 + h.1) == multiset(data)
    ensures |h.1| == |h.0| || |h.1| == |h.0| + 1
  {
    var sorted := SortByDate(data);
    var mid := |sorted| / 2;
    assert sorted[..mid] + sorted[mid..] == sorted;
    (sorted[..mid], sorted[mid..])
  }

  /** Every point of the first half is dated no later than every point of the
      second half. */
  lemma HalvesOrdered(data: seq<DataPoint>)
    ensures var h := Halves(data);
            forall i, j :: 0 <= i < |h.0| && 0 <= j < |h.1| ==> h.0[i].date <= h.1[j].date
  {
    var h := Halves(data);
    var sorted := SortByDate(data);
    forall i, j | 0 <= i < |h.0| && 0 <= j < |h.1|
      ensures h.0[i].date <= h.1[j].date
    {
      assert h.0[i] == sorted[i] && h.1[j] == sorted[|h.0| + j];
    }
  }

  datatype Direction = Up | Down | Stable

  datatype TrendResult = TrendResult(sentimentTrend: Direction, weeklyChange: real)

  /** The change of the later average relative to the earlier one, in
      percent; 0 when the earlier average is not positive. */
  function ChangePercent(firstAvg: real, secondAvg: real): (cp: real)
    ensures firstAvg <= 0.0 ==> cp == 0.0
    ensures firstAvg > 0.0 ==> cp * firstAvg == (secondAvg - firstAvg) * 100.0
  {
    if firstAvg > 0.0 then ((secondAvg - firstAvg) / firstAvg) * 100.0 else 0.0
  }

  /** A change below 2 % either way is stable; otherwise its sign decides. */
  function DirectionOf(changePercent: real): (d: Direction)
    ensures d == Stable <==> -2.0 < changePercent < 2.0
    ensures d == Up <==> changePercent >= 2.0
    ensures d == Down <==> changePercent <= -2.0
  {
    var magnitude := if changePercent < 0.0 then -changePercent else changePercent;
    if magnitude < 2.0 then Stable
    else if changePercent > 0.0 then Up
    else Down
  }

  /** `Math.round(x * 10) / 10`: a whole number of tenths, within half a
      tenth of `x`. */
  function RoundToTenth(x: real): (r: real)
    ensures x - 0.05 < r <= x + 0.05
    ensures (r * 10.0).Floor as real == r * 10.0
  {
    var n := JsRound(x * 10.0);
    assert n as real / 10.0 * 10.0 == n as real;
    n as real / 10.0
  }

  /** `calculateSentimentTrend` */
  function SentimentTrend(data: seq<DataPoint>): (r: TrendResult)
    ensures |data| < 2 ==> r == TrendResult(Stable, 0.0)
  {
    if |data| < 2 then TrendResult(Stable, 0.0)
    else
      var h := Halves(data);
      var cp := ChangePercent(AverageSentiment(h.0), AverageSentiment(h.1));
      TrendResult(DirectionOf(cp), RoundToTenth(cp))
  }

  /** A percentage `cp` with `cp * a == w` for a positive base `a` reaches
      a threshold `k` exactly when `w` reaches `k * a`. */
  lemma ScaledThreshold(cp: real, a: real, w: real, k: real)
    requires a > 0.0 && cp * a == w
    ensures cp >= k <==> w >= k * a
    ensures cp <= k <==> w <= k * a
  {
    assert w - k * a == (cp - k) * a;
  }

  /** The trend in terms of the two halves' averages `a1` (earlier) and `a2`
      (later): no earlier satisfaction means stable with no change; otherwise
      the later average must rise by at least 2 % of the earlier one for up,
      fall by as much for down, and the reported change is the relative
      change in percent, rounded to a tenth. */
  lemma TrendFromHalves(data: seq<DataPoint>)
    requires |data| >= 2
    ensures var h := Halves(data);
            var a1, a2 := AverageSentiment(h.0), AverageSentiment(h.1);
            var r := SentimentTrend(data);
            (a1 <= 0.0 ==> r == TrendResult(Stable, 0.0)) &&
            (a1 > 0.0 ==>
               (r.sentimentTrend == Up <==> (a2 - a1) * 100.0 >= 2.0 * a1) &&
               (r.sentimentTrend == Down <==> (a2 - a1) * 100.0 <= -2.0 * a1) &&
               r.weeklyChange == RoundToTenth((a2 - a1) * 100.0 / a1))
  {
    var h := Halves(data);
    var a1, a2 := AverageSentiment(h.0), AverageSentiment(h.1);
    var cp := ChangePercent(a1, a2);
    var r := SentimentTrend(data);
    assert r == TrendResult(DirectionOf(cp), RoundToTenth(cp));
    if a1 <= 0.0 {
      assert JsRound(0.0) == 0;
    } else {
      var w := (a2 - a1) * 100.0;
      ScaledThreshold(cp, a1, w, 2.0);
      ScaledThreshold(cp, a1, w, -2.0);
      assert r.sentimentTrend == Up <==> w >= 2.0 * a1;
      assert r.sentimentTrend == Down <==> w <= -2.0 * a1;
      assert cp == w / a1;
    }
  }

  /** For points with pairwise distinct dates the trend does not depend on the
      order the points are given in. */
  lemma TrendOrderIndependent(a: seq<DataPoint>, b: seq<DataPoint>)
    requires multiset(a) == multiset(b)
    requires DistinctDates(a)
    ensures SentimentTrend(a) == SentimentTrend(b)
  {
    assert |a| == |multiset(a)| == |b|;
    SortKeepsDatesDistinct(a);
    SortedUnique(SortByDate(a), SortByDate(b));
  }

  /** The reported change agrees with the direction: at least +2 for up, at
      most -2 for down, and within [-2, 2] for stable. */
  lemma TrendAgreesWithChange(data: seq<DataPoint>)
    ensures SentimentTrend(data).sentimentTrend == Up ==> SentimentTrend(data).weeklyChange >= 2.0
    ensures SentimentTrend(data).sentimentTrend == Down ==> SentimentTrend(data).weeklyChange <= -2.0
    ensures SentimentTrend(data).sentimentTrend == Stable ==>
              -2.0 <= SentimentTrend(data).weeklyChange <= 2.0
  {
    if |data| >= 2 {
      var h := Halves(data);
      var cp := ChangePercent(AverageSentiment(h.0), AverageSentiment(h.1));
      var n := JsRound(cp * 10.0);
      if cp >= 2.0 { assert n >= 20; }
      if cp <= -2.0 { assert n <= -20; }
      if -2.0 < cp < 2.0 { assert -20 <= n <= 20; }
    }
  }

  /** When the earlier half has no answers, or both halves average the same,
      the trend is stable with no change. */
  lemma FlatTrendIsStable(data: seq<DataPoint>)
    requires |data| >= 2
    requires TotalResponses(Halves(data).0) <= 0 ||
             AverageSentiment(Halves(data).0) == AverageSentiment(Halves(data).1)
    ensures SentimentTrend(data) == TrendResult(Stable, 0.0)
  {
    var h := Halves(data);
    var cp := ChangePercent(AverageSentiment(h.0), AverageSentiment(h.1));
    assert cp == 0.0;
    assert JsRound(0.0) == 0;
  }

  /** Ten happy answers followed by ten sad ones: the average falls from 3 to
      1, a change of -66.7 %, and the trend is down. */
  lemma TrendFallingExample()
    ensures SentimentTrend([DataPoint(2, Some(0), Some(0), Some(10)), DataPoint(1, Some(10), Some(0), Some(0))])
            == TrendResult(Down, -66.7)
  {
    var p, q := DataPoint(1, Some(10), Some(0), Some(0)), DataPoint(2, Some(0), Some(0), Some(10));
    var data := [q, p];
    ExampleHalves(p, q);
    ExampleAverages(p, q);
    ExampleRounding();
  }

  lemma ExampleHalves(p: DataPoint, q: DataPoint)
    requires p.date < q.date
    ensures Halves([q, p]) == ([p], [q])
  {
    assert [q, p][1..] == [p];
    assert SortByDate([p]) == Insert(p, []) == [p];
    assert Insert(q, [p]) == [p] + Insert(q, []) == [p, q];
  }

  lemma ExampleAverages(p: DataPoint, q: DataPoint)
    requires p == DataPoint(1, Some(10), Some(0), Some(0)) && q == DataPoint(2, Some(0), Some(0), Some(10))
    ensures AverageSentiment([p]) == 3.0 && AverageSentiment([q]) == 1.0
  {
    assert [p][..0] == [] && [q][..0] == [];
    assert TotalResponses([p]) == 10 && TotalWeighted([p]) == 30;
    assert TotalResponses([q]) == 10 && TotalWeighted([q]) == 10;
  }

  lemma ExampleRounding()
    ensures ChangePercent(3.0, 1.0) == -200.0 / 3.0
    ensures RoundToTenth(-200.0 / 3.0) == -66.7
    ensures DirectionOf(-200.0 / 3.0) == Down
  {
    assert JsRound(-2000.0 / 3.0) == -667;
  }

  /** One team as the statistics see it. */
  datatype TeamSentimentData = TeamSentimentData(memberCount: int, isActive: bool)

  datatype SentimentStats = SentimentStats(
    totalDataPoints: nat, avgSentiment: real, totalResponses: int, totalTeams: nat,
    activeMembers: int, sentimentTrend: Direction, weeklyChange: real,
    sentimentData: ChartUtils.Classification)

  /** `teamData?.length || 0` */
  function TeamCount(teamData: Option<seq<TeamSentimentData>>): nat {
    if teamData.Some? then |teamData.value| else 0
  }

  /** The members of the active teams, folded left to right. */
  function ActiveMembers(teams: seq<TeamSentimentData>): (n: int)
    ensures (forall k :: 0 <= k < |teams| ==> !teams[k].isActive) ==> n == 0
    ensures (forall k :: 0 <= k < |teams| ==> teams[k].memberCount >= 0) ==> n >= 0
  {
    if teams == [] then 0
    else
      var last := teams[|teams| - 1];
      ActiveMembers(teams[..|teams| - 1]) + (if last.isActive then last.memberCount else 0)
  }

  /** The total is additive: the members of the active teams of `a + b` are
      those of `a` plus those of `b`. */
  lemma {:induction false} ActiveMembersConcat(a: seq<TeamSentimentData>, b: seq<TeamSentimentData>)
    ensures ActiveMembers(a + b) == ActiveMembers(a) + ActiveMembers(b)
    decreases |b|
  {
    if b == [] {
      assert a + b == a;
    } else {
      assert (a + b)[..|a + b| - 1] == a + b[..|b| - 1];
      ActiveMembersConcat(a, b[..|b| - 1]);
    }
  }

  /** One team contributes its member count exactly when it is active. */
  lemma ActiveMembersSingle(t: TeamSentimentData)
    ensures ActiveMembers([t]) == if t.isActive then t.memberCount else 0
  {
    assert [t][..0] == [];
  }

  /** `calculateSentimentStats` */
  function SentimentStatsOf(trendData: seq<DataPoint>, teamData: Option<seq<TeamSentimentData>>)
    : (r: SentimentStats)
    ensures r.totalDataPoints == |trendData| && r.totalTeams == TeamCount(teamData)
    ensures trendData == [] ==>
              r.avgSentiment == 0.0 && r.totalResponses == 0 && r.activeMembers == 0
              && r.sentimentTrend == Stable && r.weeklyChange == 0.0
              && r.sentimentData == ChartUtils.Classification("Critical", "red", 0.0)
    ensures trendData != [] ==>
              r.avgSentiment == AverageSentiment(trendData)
              && r.totalResponses == TotalResponses(trendData)
              && r.sentimentData == ChartUtils.Classify(r.avgSentiment)
              && TrendResult(r.sentimentTrend, r.weeklyChange) == SentimentTrend(trendData)
              && r.activeMembers == (if teamData.Some? then ActiveMembers(teamData.value) else 0)
  {
    if |trendData| == 0 then
      SentimentStats(0, 0.0, 0, TeamCount(teamData), 0, Stable, 0.0,
                     ChartUtils.Classification("Critical", "red", 0.0))
    else
      var responses := TotalResponses(trendData);
      var avg := if responses > 0 then TotalWeighted(trendData) as real / responses as real else 0.0;
      var trend := SentimentTrend(trendData);
      var active := if teamData.Some? then ActiveMembers(teamData.value) else 0;
      SentimentStats(|trendData|, avg, responses, TeamCount(teamData), active,
                     trend.sentimentTrend, trend.weeklyChange, ChartUtils.Classify(avg))
  }

  /** The hard-wired result for no data agrees with classifying a score of 0. */
  lemma EmptyStatsAgreeWithClassifier(teamData: Option<seq<TeamSentimentData>>)
    ensures SentimentStatsOf([], teamData).sentimentData == ChartUtils.Classify(0.0)
  {
    ChartUtils.ClassifyLadder(0.0);
  }
}
