/** The club step of the Studio: the fetched club list sorted by name, the
    case-insensitive search over it, and the selected club. */
module ClubSearching {
  import opened Common
  import opened JsStrings
  import opened Lists
  import Sorting

  datatype Club = Club(id: string, name: string)

  function ClubName(c: Club): string { c.name }

  /** "a may come before b" in the club list. */
  function ByName(): (Club, Club) -> bool {
    Sorting.NameLe(ClubName)
  }

  /** The club's name, lower-cased, contains the lower-cased search text. */
  predicate MatchesSearch(c: Club, searchText: string) {
    Includes(ToLowerCase(c.name), ToLowerCase(searchText))
  }

  /** The filter effect: a search text that trims to nothing shows every club;
      otherwise the clubs whose name contains the (untrimmed) text, ignoring
      case, in list order. The test `searchText.trim() === ''` is written as
      `AllWhitespace(searchText)`, which `TrimEmptyIffBlank` proves equivalent. */
  function FilterClubs(clubs: seq<Club>, searchText: string): (r: seq<Club>)
    ensures Trim(searchText) == [] ==> r == clubs
    ensures Trim(searchText) != [] ==> forall c :: c in r <==> c in clubs && MatchesSearch(c, searchText)
    ensures Trim(searchText) != [] ==>
      forall c :: multiset(r)[c] == if MatchesSearch(c, searchText) then multiset(clubs)[c] else 0
    ensures |r| <= |clubs|
  {
    TrimEmptyIffBlank(searchText);
    KeyFilterCounts(clubs, (c: Club) => MatchesSearch(c, searchText), true);
    if AllWhitespace(searchText) then clubs
    else KeyFilter(clubs, (c: Club) => MatchesSearch(c, searchText), true)
  }

  /** The filtered list keeps the alphabetical order of the club list. */
  lemma FilterKeepsOrder(clubs: seq<Club>, searchText: string)
    requires Pairwise(clubs, ByName())
    ensures Pairwise(FilterClubs(clubs, searchText), ByName())
  {
    if !AllWhitespace(searchText) {
      KeyFilterPairwise(clubs, (c: Club) => MatchesSearch(c, searchText), true, ByName());
    }
  }

  /** The filtered list is the club list with some clubs deleted, in the same order. */
  lemma FilterIsSubsequence(clubs: seq<Club>, searchText: string)
    ensures IsSubsequence(FilterClubs(clubs, searchText), clubs)
  {
    var r := FilterClubs(clubs, searchText);
    if AllWhitespace(searchText) {
      assert r == clubs;
      IsSubsequenceReflexive(clubs);
    } else {
      var matches := (c: Club) => MatchesSearch(c, searchText);
      TrimEmptyIffBlank(searchText);
      assert r == KeyFilter(clubs, matches, true);
      KeyFilterIsSubsequence(clubs, matches, true);
    }
  }

  /** Matching lower-cases the search text, so a lower-case text matches alike. */
  lemma MatchesLowerCase(c: Club, searchText: string)
    ensures MatchesSearch(c, ToLowerCase(searchText)) == MatchesSearch(c, searchText)
  {
    LowerCaseIdempotent(searchText);
  }

  /** The search ignores case: typing the text in lower case gives the same list. */
  lemma {:induction false} FilterIgnoresCase(clubs: seq<Club>, searchText: string)
    ensures FilterClubs(clubs, ToLowerCase(searchText)) == FilterClubs(clubs, searchText)
  {
    var lower := ToLowerCase(searchText);
    assert AllWhitespace(lower) <==> AllWhitespace(searchText) by {
      LowerCaseKeepsBlank(searchText);
    }
    if AllWhitespace(searchText) {
      assert FilterClubs(clubs, lower) == clubs;
    } else {
      var byLower := (c: Club) => MatchesSearch(c, lower);
      var byText := (c: Club) => MatchesSearch(c, searchText);
      assert FilterClubs(clubs, lower) == KeyFilter(clubs, byLower, true) by {
        TrimEmptyIffBlank(lower);
      }
      assert FilterClubs(clubs, searchText) == KeyFilter(clubs, byText, true) by {
        TrimEmptyIffBlank(searchText);
      }
      assert KeyFilter(clubs, byLower, true) == KeyFilter(clubs, byText, true) by {
        forall c: Club ensures byLower(c) == byText(c) {
          MatchesLowerCase(c, searchText);
        }
        KeyFilterSameKeys(clubs, byLower, byText, true);
      }
    }
  }

  /** Typing more characters after a non-blank text never brings a club back. */
  lemma FilterNarrows(clubs: seq<Club>, searchText: string, more: string)
    ensures forall c :: c in FilterClubs(clubs, searchText + more) ==> c in FilterClubs(clubs, searchText)
  {
    if !AllWhitespace(searchText) {
      assert !AllWhitespace(searchText + more) by {
        var i :| 0 <= i < |searchText| && !IsWhitespace(searchText[i]);
        assert (searchText + more)[i] == searchText[i];
      }
      LowerCaseConcat(searchText, more);
      forall c | c in FilterClubs(clubs, searchText + more) ensures c in FilterClubs(clubs, searchText) {
        IncludesPrefix(ToLowerCase(c.name), ToLowerCase(searchText), ToLowerCase(more));
      }
    }
  }

  lemma NothingToFilter(searchText: string)
    ensures FilterClubs([], searchText) == []
  {
  }

  /** The club list as `fetchClubs` leaves it: alphabetical, and a permutation
      of the fetched clubs. */
  function SortClubs(data: seq<Club>): (r: seq<Club>)
    ensures multiset(r) == multiset(data)
    ensures Pairwise(r, ByName())
  {
    Sorting.SortByName(data, ClubName)
  }

  class ClubSearch {
    var clubs: seq<Club>
    var filteredClubs: seq<Club>
    var selectedClubId: string
    var searchText: string
    var loading: bool

    /** Between events the filter effect has run, and the club list is alphabetical. */
    predicate Valid()
      reads this
    {
      filteredClubs == FilterClubs(clubs, searchText) && Pairwise(clubs, ByName())
    }

    /** A club row shows the check mark when it is the selected club. */
    predicate IsChecked(c: Club)
      reads this
    {
      selectedClubId == c.id
    }

    constructor ()
      ensures Valid()
      ensures clubs == [] && filteredClubs == [] && selectedClubId == "" && searchText == "" && loading
    {
      clubs, filteredClubs, selectedClubId, searchText, loading := [], [], "", "", true;
      new;
      NothingToFilter(searchText);
    }

    /** `fetchClubs` followed by the filter effect it triggers. A failed fetch
        leaves the clubs as they were; loading ends false either way. */
    method FetchClubs(response: FetchResult<Club>)
      requires Valid()
      modifies this
      ensures Valid() && !loading
      ensures response.Failed? ==> clubs == old(clubs)
      ensures response.Loaded? ==> clubs == SortClubs(LoadedList(response.payload))
      ensures filteredClubs == FilterClubs(clubs, searchText)
      ensures response.Loaded? && Trim(searchText) == [] ==> filteredClubs == clubs
      ensures searchText == old(searchText) && selectedClubId == old(selectedClubId)
    {
      loading := true;
      if response.Loaded? {
        var sorted := SortClubs(LoadedList(response.payload));
        clubs := sorted;
        filteredClubs := sorted;
        // the new club list re-runs the filter effect
        filteredClubs := FilterClubs(clubs, searchText);
      }
      loading := false;
    }

    /** Typing in the search bar, followed by the filter effect. */
    method SetSearchText(text: string)
      requires Valid()
      modifies this
      ensures Valid()
      ensures searchText == text && filteredClubs == FilterClubs(clubs, text)
      ensures clubs == old(clubs) && selectedClubId == old(selectedClubId) && loading == old(loading)
    {
      searchText := text;
      filteredClubs := FilterClubs(clubs, searchText);
    }

    /** `handleClubSelect`: marks the club and forwards its id and name to the Studio. */
    method HandleClubSelect(clubId: string, clubName: string) returns (forwarded: (string, string))
      requires Valid()
      modifies this
      ensures Valid()
      ensures selectedClubId == clubId && forwarded == (clubId, clubName)
      ensures forall c: Club :: IsChecked(c) <==> c.id == clubId
      ensures clubs == old(clubs) && filteredClubs == old(filteredClubs)
      ensures searchText == old(searchText) && loading == old(loading)
    {
      selectedClubId := clubId;
      forwarded := (clubId, clubName);
    }
  }
}
