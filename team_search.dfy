/** The team step of the Studio: the teams of the chosen club, sorted by name,
    and the forwarding of a clicked team. */
module TeamSearching {
  import opened Common
  import opened Lists
  import Sorting

  /** A team; `liga` is the league, which only some endpoints deliver. */
  datatype Team = Team(id: string, name: string, liga: Option<string>)

  function TeamName(t: Team): string { t.name }

  /** "a may come before b" in the team list. */
  function ByName(): (Team, Team) -> bool {
    Sorting.NameLe(TeamName)
  }

  /** The team list as `fetchTeams` leaves it: alphabetical, and a permutation
      of the fetched teams. */
  function SortTeams(data: seq<Team>): (r: seq<Team>)
    ensures multiset(r) == multiset(data)
    ensures Pairwise(r, ByName())
  {
    Sorting.SortByName(data, TeamName)
  }

  class TeamSearch {
    var teams: seq<Team>
    var loading: bool

    /** The team list is alphabetical. */
    predicate Valid()
      reads this
    {
      Pairwise(teams, ByName())
    }

    constructor ()
      ensures Valid() && teams == [] && loading
    {
      teams, loading := [], true;
    }

    /** `fetchTeams`: a failed fetch leaves the teams as they were; loading ends
        false either way. */
    method FetchTeams(response: FetchResult<Team>)
      requires Valid()
      modifies this
      ensures Valid() && !loading
      ensures response.Failed? ==> teams == old(teams)
      ensures response.Loaded? ==> teams == SortTeams(LoadedList(response.payload))
    {
      loading := true;
      if response.Loaded? {
        teams := SortTeams(LoadedList(response.payload));
      }
      loading := false;
    }

    /** A click on the row at index `i` of the shown list forwards that team's
        id and name to the Studio. */
    method SelectTeam(i: nat) returns (forwarded: (string, string))
      requires i < |teams|
      ensures forwarded == (teams[i].id, teams[i].name)
    {
      forwarded := (teams[i].id, teams[i].name);
    }
  }
}
