// scripts/extract_teams.py: keep the teams of team.json whose id some user is mapped
// to, and report the mapped ids that were not found.
module ExtractTeams {
  import opened LotteryTypes

  /** A team record: its "id" and the rest of the record, carried unchanged. */
  datatype Team = Team(id: int, record: string)

  /** What the script computes before writing target_teams.json. */
  datatype Extraction = Extraction(
    teamIds: set<int>,
    targetTeams: seq<Team>,
    missingTeamIds: set<int>,
    report: Option<seq<int>>)  // the sorted list printed when some id is missing

  datatype ExtractError = IndexError  // `team_data[0]` on an empty team.json list

  /** The teams of s whose id is in ids, in order. */
  function Matching(s: seq<Team>, ids: set<int>): seq<Team>
  {
    if s == [] then []
    else (if s[0].id in ids then [s[0]] else []) + Matching(s[1..], ids)
  }

  lemma {:induction false} MatchingAppend(a: seq<Team>, b: seq<Team>, ids: set<int>)
    ensures Matching(a + b, ids) == Matching(a, ids) + Matching(b, ids)
  {
    if a == [] {
      assert a + b == b;
    } else {
      var head := if a[0].id in ids then [a[0]] else [];
      assert (a + b)[0] == a[0];
      assert (a + b)[1..] == a[1..] + b;
      assert Matching(a + b, ids) == head + Matching(a[1..] + b, ids);
      MatchingAppend(a[1..], b, ids);
      assert Matching(a, ids) == head + Matching(a[1..], ids);
    }
  }

  /**
   * The matching teams are a sub-list that keeps duplicates: every team occurs in it
   * exactly as often as in the input when its id is wanted, and not at all otherwise;
   * so it is never longer than the input.
   */
  lemma {:induction false} MatchingCounts(s: seq<Team>, ids: set<int>)
    ensures forall t :: multiset(Matching(s, ids))[t] == if t.id in ids then multiset(s)[t] else 0
    ensures |Matching(s, ids)| <= |s|
  {
    if s != [] {
      MatchingCounts(s[1..], ids);
      assert s == [s[0]] + s[1..];
    }
  }

  /** The ids of the given teams (`{team["id"] for team in target_teams}`). */
  function Ids(teams: seq<Team>): set<int>
  {
    set t | t in teams :: t.id
  }

  lemma {:induction false} MinimumExists(s: set<int>)
    requires s != {}
    ensures exists m :: m in s && forall x :: x in s ==> m <= x
    decreases s
  {
    if forall z :: z !in s {
      assert false;
    }
    var y :| y in s;
    if s != {y} {
      MinimumExists(s - {y});
      var m :| m in s - {y} && forall x :: x in s - {y} ==> m <= x;
      MinimumOfRemoved(s, y, m);
    } else {
      assert forall x :: x in s ==> y <= x;
    }
  }

  /** The least of y and the minimum of s - {y} is the minimum of s. */
  lemma MinimumOfRemoved(s: set<int>, y: int, m: int)
    requires y in s && m in s - {y}
    requires forall x :: x in s - {y} ==> m <= x
    ensures var least := if y < m then y else m;
      least in s && forall x :: x in s ==> least <= x
  {
    var least := if y < m then y else m;
    forall x | x in s ensures least <= x {
      if x != y {
        assert x in s - {y};
      }
    }
  }

  /** `sorted(list(s))`: the elements of s, ascending. */
  function SortedIds(s: set<int>): (r: seq<int>)
    ensures forall x :: x in r <==> x in s
    ensures forall i, j :: 0 <= i < j < |r| ==> r[i] < r[j]
    decreases s
  {
    if s == {} then []
    else
      MinimumExists(s);
      var m :| m in s && forall x :: x in s ==> m <= x;
      [m] + SortedIds(s - {m})
  }

  /**
   * The script between reading the two JSON files and writing the result.
   */
  method Extract(userTeamMapping: map<string, int>, teamData: seq<seq<Team>>)
    returns (r: Result<Extraction, ExtractError>)
    ensures r.Err? <==> teamData == []
    ensures r.Ok? ==>
      var e := r.value;
      e.teamIds == userTeamMapping.Values &&
      e.targetTeams == Matching(teamData[0], e.teamIds) &&
      Ids(e.targetTeams) <= e.teamIds &&
      e.missingTeamIds == e.teamIds - Ids(e.targetTeams) &&
      (e.report.Some? <==> e.missingTeamIds != {}) &&
      (e.report.Some? ==> e.report.value == SortedIds(e.missingTeamIds))
  {
    var teamIds := userTeamMapping.Values;
    if teamData == [] {
      return Err(IndexError);
    }
    var teams := teamData[0];
    var targetTeams := [];
    for i := 0 to |teams|
      invariant targetTeams == Matching(teams[..i], teamIds)
    {
      MatchingAppend(teams[..i], [teams[i]], teamIds);
      assert teams[..i + 1] == teams[..i] + [teams[i]];
      if teams[i].id in teamIds {
        targetTeams := targetTeams + [teams[i]];
      }
    }
    assert teams[..|teams|] == teams;
    var foundTeamIds := Ids(targetTeams);
    var missingTeamIds := teamIds - foundTeamIds;
    var report := None;
    if missingTeamIds != {} {
      report := Some(SortedIds(missingTeamIds));
    }
    MatchingCounts(teams, teamIds);
    assert forall t :: t in targetTeams ==> t.id in teamIds by {
      forall t | t in targetTeams ensures t.id in teamIds {
        assert multiset(targetTeams)[t] > 0;
      }
    }
    r := Ok(Extraction(teamIds, targetTeams, missingTeamIds, report));
  }

  /** Found and missing ids split the mapped ids: disjoint, and together all of them. */
  lemma FoundAndMissingPartition(teams: seq<Team>, teamIds: set<int>)
    ensures var found := Ids(Matching(teams, teamIds));
      found <= teamIds &&
      found * (teamIds - found) == {} &&
      found + (teamIds - found) == teamIds
  {
    MatchingCounts(teams, teamIds);
    var found := Ids(Matching(teams, teamIds));
    forall x | x in found ensures x in teamIds {
      var t :| t in Matching(teams, teamIds) && t.id == x;
      assert multiset(Matching(teams, teamIds))[t] > 0;
    }
  }
}
