/**
 * The teams page's summary numbers: team count, member count and a
 * "health score" derived from the members per team.
 */
module TeamStats {
  import opened Domain
  import opened Text

  /** A team as this section sees it: its member list may be missing. */
  datatype StatsTeam = StatsTeam(members: Option<seq<Member>>)

  /** `team.members?.length || 0` */
  function MemberCount(t: StatsTeam): (n: nat)
    ensures t.members.None? ==> n == 0
    ensures t.members.Some? ==> n == |t.members.value|
  {
    if t.members.Some? then |t.members.value| else 0
  }

  /** The `reduce` summing member-list lengths, a missing list adding 0. */
  function TotalMembers(teams: seq<StatsTeam>): (n: nat)
    ensures teams == [] ==> n == 0
    ensures forall i :: 0 <= i < |teams| ==> MemberCount(teams[i]) <= n
    decreases |teams|
  {
    if teams == [] then 0
    else
      var rest := TotalMembers(teams[..|teams| - 1]);
      assert forall i :: 0 <= i < |teams| - 1 ==> teams[i] == teams[..|teams| - 1][i];
      rest + MemberCount(teams[|teams| - 1])
  }

  /** The total does not depend on how the teams are split up. */
  lemma {:induction false} TotalMembersConcat(a: seq<StatsTeam>, b: seq<StatsTeam>)
    ensures TotalMembers(a + b) == TotalMembers(a) + TotalMembers(b)
    decreases |b|
  {
    if b == [] {
      assert a + b == a;
    } else {
      var c := a + b;
      assert c[..|c| - 1] == a + b[..|b| - 1];
      TotalMembersConcat(a, b[..|b| - 1]);
    }
  }

  /** One team adds exactly its own member count; with `TotalMembersConcat`
      the total is the sum of the teams' counts. */
  lemma TotalMembersSingle(t: StatsTeam)
    ensures TotalMembers([t]) == MemberCount(t)
  {
    assert [t][..0] == [];
  }

  /** members per team, times 10, plus 70. */
  function RawHealth(totalMembers: nat, totalTeams: nat): real
    requires totalTeams > 0
  {
    (totalMembers as real / totalTeams as real) * 10.0 + 70.0
  }

  /** `healthScore`: 0 without teams, otherwise the raw value rounded
      half up and capped at 100. */
  function HealthScore(totalMembers: nat, totalTeams: nat): (h: int)
    ensures totalTeams == 0 ==> h == 0
    ensures totalTeams > 0 ==> 70 <= h <= 100
    ensures totalTeams > 0 ==> (h == 100 <==> RawHealth(totalMembers, totalTeams) >= 99.5)
    ensures totalTeams > 0 && h < 100 ==>
              (h as real) - 0.5 <= RawHealth(totalMembers, totalTeams) < (h as real) + 0.5
  {
    if totalTeams > 0 then
      var x := RawHealth(totalMembers, totalTeams);
      NonNegativeQuotient(totalMembers as real, totalTeams as real);
      var r := JsRound(x);
      if r < 100 then r else 100
    else 0
  }

  /** More members on the same teams never lowers the score. */
  lemma HealthMonotone(m1: nat, m2: nat, teams: nat)
    requires m1 <= m2 && teams > 0
    ensures HealthScore(m1, teams) <= HealthScore(m2, teams)
  {
    var t := teams as real;
    var q1, q2 := m1 as real / t, m2 as real / t;
    QuotientTimes(m1 as real, t);
    QuotientTimes(m2 as real, t);
    CancelPositive(q1, t, m1 as real, 0.0, q2);
    JsRoundMonotone(q1 * 10.0 + 70.0, q2 * 10.0 + 70.0);
  }

  lemma JsRoundMonotone(x: real, y: real)
    requires x <= y
    ensures JsRound(x) <= JsRound(y)
  {
  }

  datatype Stats = Stats(totalTeams: nat, totalMembers: nat, healthScore: string)

  /** `calculateStats`. */
  function CalculateStats(teams: seq<StatsTeam>): (s: Stats)
    ensures s.totalTeams == |teams| && s.totalMembers == TotalMembers(teams)
    ensures |s.healthScore| >= 2 && s.healthScore[|s.healthScore| - 1] == '%'
    ensures AllDigits(s.healthScore[..|s.healthScore| - 1])
    ensures DigitsValue(s.healthScore[..|s.healthScore| - 1]) == HealthScore(TotalMembers(teams), |teams|)
  {
    var h := HealthScore(TotalMembers(teams), |teams|);
    NatToStringRoundTrip(h);
    var text := NatToString(h) + "%";
    assert text[..|text| - 1] == NatToString(h);
    Stats(|teams|, TotalMembers(teams), text)
  }

  /** No teams reads "0%"; one team of three members reads "100%". */
  lemma StatsExamples(m: Member)
    ensures CalculateStats([]).healthScore == "0%"
    ensures CalculateStats([StatsTeam(Some([m, m, m]))]).healthScore == "100%"
    ensures CalculateStats([StatsTeam(None)]).healthScore == "70%"
  {
    var one := [StatsTeam(Some([m, m, m]))];
    assert TotalMembers(one) == 3;
    assert HealthScore(3, 1) == 100;
    var none := [StatsTeam(None)];
    assert TotalMembers(none) == 0;
    assert HealthScore(0, 1) == 70;
  }
}
