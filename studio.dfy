/** The Studio page: a wizard over sport -> club -> team -> games -> preview.
    Its seven state fields are overwritten by handler methods; which screen and
    which title are shown depends only on which fields are non-empty. */
module Studio {
  import opened Common

  /** A snapshot of the page's seven state fields. An empty id string is the
      unset value, as the page tests the fields for truthiness. */
  datatype Selection = Selection(
    sport: Option<Sport>,
    clubId: string,
    clubName: string,
    teamId: string,
    teamName: string,
    gameIds: seq<string>,
    gameResults: seq<bool>)

  const Initial := Selection(None, "", "", "", "", [], [])

  /** The user actions the page's handlers react to. */
  datatype Event =
    | SportChange(sport: Sport)
    | ClubSelect(clubId: string, clubName: string)
    | TeamSelect(teamId: string, teamName: string)
    | GameSelect(gameIds: seq<string>, hasResults: seq<bool>)
    | BackToSport
    | BackToClub
    | BackToTeam
    | BackToGame

  /** The state after one handler runs. */
  function Next(s: Selection, e: Event): (r: Selection)
    ensures e.GameSelect? ==> r.gameIds == e.gameIds && r.gameResults == e.hasResults
    ensures !e.GameSelect? ==> r.gameIds == [] && r.gameResults == s.gameResults
  {
    match e
    case SportChange(sport) =>
      s.(sport := Some(sport), clubId := "", clubName := "", teamId := "", teamName := "", gameIds := [])
    case ClubSelect(id, name) =>
      s.(clubId := id, clubName := name, teamId := "", teamName := "", gameIds := [])
    case TeamSelect(id, name) =>
      s.(teamId := id, teamName := name, gameIds := [])
    case GameSelect(ids, flags) =>
      s.(gameIds := ids, gameResults := flags)
    case BackToSport =>
      s.(sport := None, clubId := "", clubName := "", teamId := "", teamName := "", gameIds := [])
    case BackToClub =>
      s.(clubId := "", clubName := "", teamId := "", teamName := "", gameIds := [])
    case BackToTeam =>
      s.(teamId := "", teamName := "", gameIds := [])
    case BackToGame =>
      s.(gameIds := [])
  }

  // The five render guards of the page body, one per step.
  predicate ShowsSportStep(s: Selection) { s.sport.None? }
  predicate ShowsClubStep(s: Selection) { s.sport.Some? && s.clubId == "" }
  predicate ShowsTeamStep(s: Selection) { s.sport.Some? && s.clubId != "" && s.teamId == "" }
  predicate ShowsGameStep(s: Selection) { s.sport.Some? && s.clubId != "" && s.teamId != "" && |s.gameIds| == 0 }
  predicate ShowsPreview(s: Selection) { s.sport.Some? && s.clubId != "" && s.teamId != "" && |s.gameIds| > 0 }

  datatype Step = SportStep | ClubStep | TeamStep | GameStep | PreviewStep

  /** The steps whose guard holds, in the order the page renders them. */
  function ShownSteps(s: Selection): seq<Step> {
    (if ShowsSportStep(s) then [SportStep] else [])
    + (if ShowsClubStep(s) then [ClubStep] else [])
    + (if ShowsTeamStep(s) then [TeamStep] else [])
    + (if ShowsGameStep(s) then [GameStep] else [])
    + (if ShowsPreview(s) then [PreviewStep] else [])
  }

  /** The body guards are exclusive and exhaustive in every state: the page
      always shows exactly one step. */
  function CurrentStep(s: Selection): (st: Step)
    ensures ShownSteps(s) == [st]
  {
    if s.sport.None? then SportStep
    else if s.clubId == "" then ClubStep
    else if s.teamId == "" then TeamStep
    else if |s.gameIds| == 0 then GameStep
    else PreviewStep
  }

  /** A fragment of the toolbar title. Translated texts are named by their key. */
  datatype TitlePart =
    | StudioTitle
    | SportTitle(sportLabel: string)
    | ClubTitle(clubName: string)
    | TeamTitle(clubName: string, teamName: string)

  /** The title fragments whose guards hold. Unlike the body guards these do
      not re-test the upstream fields. */
  function TitleParts(s: Selection): seq<TitlePart> {
    (if s.sport.None? then [StudioTitle] else [])
    + (if s.sport.Some? && s.clubId == "" then [SportTitle(SportLabel(s.sport.value))] else [])
    + (if s.clubId != "" && s.teamId == "" then [ClubTitle(s.clubName)] else [])
    + (if s.teamId != "" then [TeamTitle(s.clubName, s.teamName)] else [])
  }

  /** The wizard invariant: club => sport, team => club, games => team. */
  predicate Consistent(s: Selection) {
    && (s.clubId != "" ==> s.sport.Some?)
    && (s.teamId != "" ==> s.clubId != "")
    && (|s.gameIds| > 0 ==> s.teamId != "")
  }

  /** Under the invariant, the title has exactly one fragment, and it belongs to the step shown. */
  lemma TitleMatchesStep(s: Selection)
    requires Consistent(s)
    ensures |TitleParts(s)| == 1
    ensures CurrentStep(s) == SportStep <==> TitleParts(s)[0] == StudioTitle
    ensures CurrentStep(s) == ClubStep <==> TitleParts(s)[0].SportTitle?
    ensures CurrentStep(s) == TeamStep <==> TitleParts(s)[0].ClubTitle?
    ensures CurrentStep(s) in {GameStep, PreviewStep} <==> TitleParts(s)[0].TeamTitle?
  {
  }

  /** Without the invariant the title guards are not exclusive: a club left
      over without a sport renders two fragments. */
  lemma TitleNeedsInvariant()
    ensures var s := Initial.(clubId := "c1", clubName := "Bern");
      !Consistent(s) && TitleParts(s) == [StudioTitle, ClubTitle("Bern")]
  {
  }

  /** When each handler can run: the component or button that calls it is only
      rendered at one step. The games come from GameList, which hands over a
      non-empty list of at most three distinct ids. */
  predicate Enabled(s: Selection, e: Event) {
    match e
    case SportChange(_) => ShowsSportStep(s)
    case ClubSelect(_, _) => ShowsClubStep(s)
    case TeamSelect(_, _) => ShowsTeamStep(s)
    case GameSelect(ids, _) => ShowsGameStep(s) && 0 < |ids| <= 3 && NoDuplicates(ids)
    case BackToSport => ShowsClubStep(s)
    case BackToClub => ShowsTeamStep(s)
    case BackToTeam => ShowsGameStep(s)
    case BackToGame => ShowsPreview(s)
  }

  /** The invariant the page keeps, with the game-list bounds it receives. */
  predicate Reachable(s: Selection) {
    Consistent(s) && |s.gameIds| <= 3 && NoDuplicates(s.gameIds)
  }

  /** Every enabled handler preserves the invariant. */
  lemma NextPreservesInvariant(s: Selection, e: Event)
    requires Reachable(s) && Enabled(s, e)
    ensures Reachable(Next(s, e))
  {
  }

  /** Every handler clears exactly what lies downstream of the field it sets,
      keeps what lies upstream, and only the game hand-over writes the result flags. */
  lemma NextClearsDownstream(s: Selection, e: Event)
    ensures var r := Next(s, e);
      && (e.SportChange? ==> r.sport == Some(e.sport) && r.clubId == r.clubName == r.teamId == r.teamName == "" && r.gameIds == [])
      && (e.ClubSelect? ==> r.sport == s.sport && r.clubId == e.clubId && r.clubName == e.clubName
                            && r.teamId == r.teamName == "" && r.gameIds == [])
      && (e.TeamSelect? ==> r.sport == s.sport && r.clubId == s.clubId && r.clubName == s.clubName
                            && r.teamId == e.teamId && r.teamName == e.teamName && r.gameIds == [])
      && (e.GameSelect? ==> r == s.(gameIds := e.gameIds, gameResults := e.hasResults))
      && (e.BackToSport? ==> r == Initial.(gameResults := s.gameResults))
      && (e.BackToClub? ==> r == Initial.(sport := s.sport, gameResults := s.gameResults))
      && (e.BackToTeam? ==> r == s.(teamId := "", teamName := "", gameIds := []))
      && (e.BackToGame? ==> r == s.(gameIds := []))
      && (!e.GameSelect? ==> r.gameResults == s.gameResults)
  {
  }

  /** Each enabled handler moves the wizard to the next step (or the
      previous one, for back buttons): forward picks advance one step (an empty id leaves it in place, as an
      empty string is falsy), back buttons go back one step. */
  lemma NextStep(s: Selection, e: Event)
    requires Enabled(s, e)
    ensures var st := CurrentStep(Next(s, e));
      && (e.SportChange? ==> st == ClubStep)
      && (e.ClubSelect? ==> st == if e.clubId == "" then ClubStep else TeamStep)
      && (e.TeamSelect? ==> st == if e.teamId == "" then TeamStep else GameStep)
      && (e.GameSelect? ==> st == PreviewStep)
      && (e.BackToSport? ==> st == SportStep)
      && (e.BackToClub? ==> st == ClubStep)
      && (e.BackToTeam? ==> st == TeamStep)
      && (e.BackToGame? ==> st == GameStep)
  {
  }

  /** A back button undoes the forward pick that left its step, except for the
      result flags, which no back handler clears. */
  lemma BackUndoesPick(s: Selection, e: Event)
    requires Enabled(s, e) && Reachable(s)
    ensures e.ClubSelect? && s.clubName == s.teamName == "" ==> Next(Next(s, e), BackToClub) == s
    ensures e.TeamSelect? && s.teamName == "" ==> Next(Next(s, e), BackToTeam) == s
    ensures e.GameSelect? ==> Next(Next(s, e), BackToGame) == s.(gameResults := e.hasResults)
  {
  }

  /** Runs a sequence of handler calls. */
  function Run(s: Selection, es: seq<Event>): Selection
    decreases |es|
  {
    if es == [] then s else Run(Next(s, es[0]), es[1..])
  }

  /** Every sequence of enabled handler calls keeps the invariant. */
  predicate AllEnabled(s: Selection, es: seq<Event>)
    decreases |es|
  {
    es == [] || (Enabled(s, es[0]) && AllEnabled(Next(s, es[0]), es[1..]))
  }

  lemma {:induction false} RunPreservesInvariant(s: Selection, es: seq<Event>)
    requires Reachable(s) && AllEnabled(s, es)
    ensures Reachable(Run(s, es))
    decreases |es|
  {
    if es != [] {
      NextPreservesInvariant(s, es[0]);
      RunPreservesInvariant(Next(s, es[0]), es[1..]);
    }
  }

  /** The page itself: the seven `useState` fields and their handlers. */
  class StudioPage {
    var selectedSport: Option<Sport>
    var selectedClubId: string
    var selectedClubName: string
    var selectedTeamId: string
    var selectedTeamName: string
    var selectedGameIds: seq<string>
    var gamesHaveResults: seq<bool>

    function State(): Selection
      reads this
    {
      Selection(selectedSport, selectedClubId, selectedClubName, selectedTeamId,
                selectedTeamName, selectedGameIds, gamesHaveResults)
    }

    constructor ()
      ensures State() == Initial
    {
      selectedSport := None;
      selectedClubId, selectedClubName := "", "";
      selectedTeamId, selectedTeamName := "", "";
      selectedGameIds, gamesHaveResults := [], [];
    }

    method HandleSportChange(sport: Sport)
      modifies this
      ensures State() == Next(old(State()), SportChange(sport))
    {
      selectedSport := Some(sport);
      selectedClubId := "";
      selectedClubName := "";
      selectedTeamId := "";
      selectedTeamName := "";
      selectedGameIds := [];
    }

    method HandleClubSelect(clubId: string, clubName: string)
      modifies this
      ensures State() == Next(old(State()), ClubSelect(clubId, clubName))
    {
      selectedClubId := clubId;
      selectedClubName := clubName;
      selectedTeamId := "";
      selectedTeamName := "";
      selectedGameIds := [];
    }

    method HandleTeamSelect(teamId: string, teamName: string)
      modifies this
      ensures State() == Next(old(State()), TeamSelect(teamId, teamName))
    {
      selectedTeamId := teamId;
      selectedTeamName := teamName;
      selectedGameIds := [];
    }

    /** The third argument, the fetched games, is accepted and ignored. */
    method HandleGameSelect<G>(gameIds: seq<string>, hasResults: seq<bool>, games: Option<seq<G>>)
      modifies this
      ensures State() == Next(old(State()), GameSelect(gameIds, hasResults))
    {
      selectedGameIds := gameIds;
      gamesHaveResults := hasResults;
    }

    method HandleBackToSportSelection()
      modifies this
      ensures State() == Next(old(State()), BackToSport)
    {
      selectedSport := None;
      selectedClubId := "";
      selectedClubName := "";
      selectedTeamId := "";
      selectedTeamName := "";
      selectedGameIds := [];
    }

    method HandleBackToClubSelection()
      modifies this
      ensures State() == Next(old(State()), BackToClub)
    {
      selectedClubId := "";
      selectedClubName := "";
      selectedTeamId := "";
      selectedTeamName := "";
      selectedGameIds := [];
    }

    method HandleBackToTeamSelection()
      modifies this
      ensures State() == Next(old(State()), BackToTeam)
    {
      selectedTeamId := "";
      selectedTeamName := "";
      selectedGameIds := [];
    }

    method HandleBackToGameSelection()
      modifies this
      ensures State() == Next(old(State()), BackToGame)
    {
      selectedGameIds := [];
    }
  }
}
