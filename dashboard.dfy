/**
 * The dashboard page's figures: a nested loop over teams and members that
 * counts members, tallies the three sentiments and sums a score, and the
 * overall sentiment and happy percentage derived from them.
 */
module Dashboard {
  import opened Domain

  /** Every member of every team, team after team. */
  function AllMembers(teams: seq<Team>): (all: seq<Member>)
    ensures teams == [] ==> all == []
    decreases |teams|
  {
    if teams == [] then [] else AllMembers(teams[..|teams| - 1]) + teams[|teams| - 1].members
  }

  /** `totalMembers`: the `reduce` summing the member-list lengths. */
  function TotalMembers(teams: seq<Team>): nat
    decreases |teams|
  {
    if teams == [] then 0 else TotalMembers(teams[..|teams| - 1]) + |teams[|teams| - 1].members|
  }

  /** The summed lengths are the number of members the loop visits. */
  lemma {:induction false} TotalMembersCountsAll(teams: seq<Team>)
    ensures |AllMembers(teams)| == TotalMembers(teams)
    decreases |teams|
  {
    if teams != [] {
      TotalMembersCountsAll(teams[..|teams| - 1]);
    }
  }

  /** What the `switch` adds for one member: 3, 2, 1, and 2 for any other value. */
  function MemberScore(s: Sentiment): (n: nat)
    ensures 1 <= n <= 3
    ensures !s.Unrecognised? ==> n == (if s.Happy? then 3 else if s.Neutral? then 2 else 1)
  {
    match s
    case Happy => 3
    case Neutral => 2
    case Sad => 1
    case Unrecognised => 2
  }

  function ScoreSum(members: seq<Member>): (n: nat)
    ensures |members| <= n <= 3 * |members|
    decreases |members|
  {
    if members == [] then 0
    else ScoreSum(members[..|members| - 1]) + MemberScore(members[|members| - 1].sentiment)
  }

  /** The summed score is the weighted count plus 2 for each member with
      another value. */
  lemma {:induction false} ScoreSumIsWeighted(members: seq<Member>)
    ensures ScoreSum(members) == WeightedCount(members) + 2 * CountOf(members, Unrecognised)
    decreases |members|
  {
    if members != [] {
      var init, last := members[..|members| - 1], members[|members| - 1];
      assert members == init + [last];
      ScoreSumIsWeighted(init);
      ScoreSumStep(init, last);
      WeightedStep(init, last);
    }
  }

  /** One more member adds its own score to the weighted count plus the
      other-value term. */
  lemma WeightedStep(seen: seq<Member>, m: Member)
    ensures WeightedCount(seen + [m]) + 2 * CountOf(seen + [m], Unrecognised)
            == WeightedCount(seen) + 2 * CountOf(seen, Unrecognised) + MemberScore(m.sentiment)
  {
    assert [m][1..] == [];
    CountOfConcat(seen, [m], Happy);
    CountOfConcat(seen, [m], Neutral);
    CountOfConcat(seen, [m], Sad);
    CountOfConcat(seen, [m], Unrecognised);
  }

  /** With only the three sentiments no member has another value. */
  lemma {:induction false} NoOthers(members: seq<Member>)
    requires AllRecognised(members)
    ensures CountOf(members, Unrecognised) == 0
    decreases |members|
  {
    if members != [] {
      assert AllRecognised(members[1..]) by {
        forall k | 0 <= k < |members[1..]| ensures !members[1..][k].sentiment.Unrecognised? {
          assert members[1..][k] == members[k + 1];
        }
      }
      NoOthers(members[1..]);
    }
  }

  /** `sentimentBreakdown`'s three keys. */
  datatype Breakdown = Breakdown(happy: nat, neutral: nat, sad: nat)

  function BreakdownOf(members: seq<Member>): (b: Breakdown)
    ensures b.happy + b.neutral + b.sad <= |members|
    ensures AllRecognised(members) <==> b.happy + b.neutral + b.sad == |members|
  {
    CountsPartition(members);
    Breakdown(CountOf(members, Happy), CountOf(members, Neutral), CountOf(members, Sad))
  }

  /** One more member adds one to its own sentiment's count only. */
  lemma BreakdownStep(seen: seq<Member>, m: Member)
    ensures var b, b' := BreakdownOf(seen), BreakdownOf(seen + [m]);
            b'.happy == b.happy + (if m.sentiment == Happy then 1 else 0)
            && b'.neutral == b.neutral + (if m.sentiment == Neutral then 1 else 0)
            && b'.sad == b.sad + (if m.sentiment == Sad then 1 else 0)
  {
    CountOfConcat(seen, [m], Happy);
    CountOfConcat(seen, [m], Neutral);
    CountOfConcat(seen, [m], Sad);
  }

  /** One more member adds its own score to the sum. */
  lemma ScoreSumStep(seen: seq<Member>, m: Member)
    ensures ScoreSum(seen + [m]) == ScoreSum(seen) + MemberScore(m.sentiment)
  {
    assert (seen + [m])[..|seen|] == seen;
  }

  /** One more team appends its members. */
  lemma AllMembersStep(teams: seq<Team>, i: nat)
    requires i < |teams|
    ensures AllMembers(teams[..i + 1]) == AllMembers(teams[..i]) + teams[i].members
  {
    assert teams[..i + 1][..i] == teams[..i];
  }

  /** The page's nested `forEach` loops. */
  method Tally(teams: seq<Team>) returns (memberCount: nat, breakdown: Breakdown, totalSentimentScore: nat)
    ensures memberCount == |AllMembers(teams)| == TotalMembers(teams)
    ensures breakdown == BreakdownOf(AllMembers(teams))
    ensures totalSentimentScore == ScoreSum(AllMembers(teams))
  {
    memberCount, breakdown, totalSentimentScore := 0, Breakdown(0, 0, 0), 0;
    var i := 0;
    while i < |teams|
      invariant 0 <= i <= |teams|
      invariant memberCount == |AllMembers(teams[..i])|
      invariant breakdown == BreakdownOf(AllMembers(teams[..i]))
      invariant totalSentimentScore == ScoreSum(AllMembers(teams[..i]))
    {
      var members := teams[i].members;
      ghost var seen := AllMembers(teams[..i]);
      var j := 0;
      assert seen + members[..0] == seen;
      while j < |members|
        invariant 0 <= j <= |members|
        invariant memberCount == |seen + members[..j]|
        invariant breakdown == BreakdownOf(seen + members[..j])
        invariant totalSentimentScore == ScoreSum(seen + members[..j])
      {
        var m := members[j];
        BreakdownStep(seen + members[..j], m);
        ScoreSumStep(seen + members[..j], m);
        assert seen + members[..j + 1] == (seen + members[..j]) + [m];
        memberCount := memberCount + 1;
        match m.sentiment {
          case Happy =>
            breakdown := breakdown.(happy := breakdown.happy + 1);
            totalSentimentScore := totalSentimentScore + 3;
          case Neutral =>
            breakdown := breakdown.(neutral := breakdown.neutral + 1);
            totalSentimentScore := totalSentimentScore + 2;
          case Sad =>
            breakdown := breakdown.(sad := breakdown.sad + 1);
            totalSentimentScore := totalSentimentScore + 1;
          case Unrecognised =>
            totalSentimentScore := totalSentimentScore + 2;
        }
        j := j + 1;
      }
      assert members[..j] == members;
      AllMembersStep(teams, i);
      i := i + 1;
    }
    assert teams[..i] == teams;
    TotalMembersCountsAll(teams);
  }

  /** `overallSentiment` before formatting: 0 with no members. */
  function OverallSentiment(totalScore: nat, memberCount: nat): (avg: real)
    ensures memberCount == 0 ==> avg == 0.0
    ensures memberCount > 0 ==> avg * (memberCount as real) == totalScore as real
    ensures memberCount > 0 && memberCount <= totalScore <= 3 * memberCount ==> 1.0 <= avg <= 3.0
  {
    if memberCount == 0 then 0.0
    else if memberCount <= totalScore <= 3 * memberCount then
      QuotientBetween(totalScore as real, memberCount as real, 1.0, 3.0);
      totalScore as real / memberCount as real
    else
      QuotientTimes(totalScore as real, memberCount as real);
      totalScore as real / memberCount as real
  }

  /** `happyPercentage`: the happy share rounded half up to a whole percent. */
  function HappyPercentage(happy: nat, memberCount: nat): (p: int)
    ensures memberCount == 0 ==> p == 0
    ensures memberCount > 0 ==>
              (p as real) - 0.5 <= (happy as real / memberCount as real) * 100.0 < (p as real) + 0.5
    ensures memberCount > 0 && happy <= memberCount ==> 0 <= p <= 100
  {
    if memberCount == 0 then 0
    else if happy <= memberCount then
      QuotientBetween(happy as real, memberCount as real, 0.0, 1.0);
      JsRound((happy as real / memberCount as real) * 100.0)
    else
      JsRound((happy as real / memberCount as real) * 100.0)
  }

  /** The sentiment overview is rendered only when there are members. */
  predicate ShowsOverview(memberCount: nat) {
    memberCount > 0
  }

  /** What the page shows, from the loop's results: nothing but zeros for no
      members; otherwise an overall sentiment in [1, 3] (other values score 2,
      so this holds whatever the members hold) and a percentage in [0, 100]. */
  lemma DashboardFigures(teams: seq<Team>)
    ensures var all := AllMembers(teams);
            var overall := OverallSentiment(ScoreSum(all), |all|);
            var happy := HappyPercentage(BreakdownOf(all).happy, |all|);
            (|all| == 0 ==> overall == 0.0 && happy == 0 && !ShowsOverview(|all|))
            && (|all| > 0 ==> 1.0 <= overall <= 3.0 && 0 <= happy <= 100 && ShowsOverview(|all|))
  {
  }

  /** With only the three sentiments, the dashboard's overall figure is the
      same weighted mean the team cards use. */
  lemma OverallAgreesWithCards(teams: seq<Team>)
    requires AllRecognised(AllMembers(teams)) && |AllMembers(teams)| > 0
    ensures OverallSentiment(ScoreSum(AllMembers(teams)), |AllMembers(teams)|) == MeanScore(AllMembers(teams))
  {
    var all := AllMembers(teams);
    ScoreSumIsWeighted(all);
    NoOthers(all);
    assert ScoreSum(all) == WeightedCount(all);
    assert OverallSentiment(ScoreSum(all), |all|) == ScoreSum(all) as real / |all| as real;
    assert MeanScore(all) == WeightedCount(all) as real / |all| as real;
  }
}
