# Kanva Studio selection wizard — a Dafny model

Kanva is an Ionic/React app for building social-media graphics of Swiss
club-sport games. This project models its Studio flow and the small rules
around it, and proves properties of them:

- **Studio** (`studio.dfy`, module `Studio`): the wizard page. Its seven state
  fields (sport, club id/name, team id/name, selected game ids, result flags)
  are overwritten by eight handlers. The screen shown depends only on which
  fields are non-empty. `StudioPage` is the page as a class. `Next` is the pure
  transition that the handlers are proved to follow. The invariant is club ⇒ sport,
  team ⇒ club, games ⇒ team.
- **Game list** (`game_list.dfy`, module `GameListing`):
  - the bounded (three games), duplicate-free selection toggle;
  - the "has result" flags handed to the wizard;
  - `DD.MM.YYYY` date parsing;
  - the split of fetched games into past / today / future (a loop over the list);
  - the per-bucket sorts and their concatenation with or without past games;
  - the grouping of the shown list by date (a loop that updates a map).
- **Club and team search** (`club_search.dfy`, `team_search.dfy`): the name sort
  of the fetched lists, the empty-data fallback, and the case-insensitive
  substring filter with its whitespace-only "show all" rule. It also covers the
  forwarding of a clicked club or team.
- **Preview** (`game_preview.dfy`, module `Preview`):
  - the `gameId` / `gameId2` / `gameId3` split;
  - the sport-to-API-type mapping;
  - the render key;
  - the theme choice;
  - the preview / result tabs with their auto-switch effect.
- **App shell** (`app.dfy`, module `AppShell`): the deep-link listener's
  auth-callback test and target path, and the router's loading gate and routes.
- **Registration** (`register.dfy`): the password checks of `handleRegister`, in
  their fixed order, and the page state around the sign-up call.
- **Canvas editor** (`canvas_editor.dfy`, module `Canvas`): adding text and
  shape elements, the click hit test, deleting the selected element, and saving
  and loading the element list.

Shared modules:

- `Common`: optional values, fetch outcomes and sports.
- `JsStrings`: the JavaScript string operations the components use, on `seq<char>`.
- `Lists`: the keep-elements-with-a-key filter, subsequences and pairwise order.
- `Sorting`: `Array.prototype.sort`, modelled as a stable insertion sort.

Fetches are inputs:

- a `FetchResult` is either `Failed` (a non-OK status or an exception) or
  `Loaded` with the `data.<field>` list present or absent;
- "today" is a `Date` parameter;
- element ids that the editor takes from `Date.now()` are parameters.

Where the source sorts or pushes in place, the model reassigns sequence
values. Each state-changing method states its new state exactly, in terms of
the pure functions the lemmas are about.

## Model

| member | source | states |
|---|---|---|
| Common.LoadedList | src/components/studio/ClubSearch.tsx:60 | An absent `data.<field>` list is the empty list; a present one is taken as it is. |
| JsStrings.Includes | src/components/studio/ClubSearch.tsx:83 | `s.includes(t)` holds iff `t` occurs in `s` as a contiguous run at some index. |
| JsStrings.IndexOf | src/App.tsx:108 | The result is -1 iff the character is absent. Otherwise it is an index holding it, with no earlier occurrence. |
| JsStrings.TrimStart | src/components/studio/ClubSearch.tsx:79 | The result is a suffix of the input. The dropped prefix is all whitespace, and the result does not start with whitespace. |
| JsStrings.TrimEnd | src/components/studio/ClubSearch.tsx:79 | The result is a prefix of the input. The dropped suffix is all whitespace, and the result does not end with whitespace. |
| JsStrings.Trim | src/components/studio/ClubSearch.tsx:79 | `trim()` never lengthens the text and leaves no whitespace at either end. |
| JsStrings.TrimEmptyIffBlank | src/components/studio/ClubSearch.tsx:79 | `trim()` yields the empty string exactly when the text consists of whitespace only. |
| JsStrings.TrimIsInnerSlice | src/components/studio/ClubSearch.tsx:79 | The trimmed text is a contiguous slice of the input with no whitespace at either end. |
| JsStrings.ToLowerCase | src/components/studio/ClubSearch.tsx:83 | Lower-casing keeps the length and maps every character on its own. |
| JsStrings.LowerCaseIdempotent | src/components/studio/ClubSearch.tsx:83 | Lower-casing twice is lower-casing once. |
| JsStrings.LowerCaseConcat | src/components/studio/ClubSearch.tsx:83 | Lower-casing distributes over concatenation. |
| JsStrings.LowerCaseKeepsBlank | src/components/studio/ClubSearch.tsx:79-83 | A text is all whitespace iff its lower-cased form is. |
| JsStrings.IncludesPrefix | src/components/studio/ClubSearch.tsx:83 | A string that contains `t + u` contains `t`. |
| JsStrings.LexLeReflexive | src/components/studio/ClubSearch.tsx:62-64 | The name order relates every name to itself. |
| JsStrings.LexLeTotal | src/components/studio/ClubSearch.tsx:62-64 | Any two names are comparable. |
| JsStrings.LexLeAntisymmetric | src/components/studio/ClubSearch.tsx:62-64 | Names ordered both ways are equal. |
| JsStrings.LexLeTransitive | src/components/studio/ClubSearch.tsx:62-64 | The name order is transitive. |
| Lists.KeyFilter | src/components/studio/GameList.tsx:128-139 | Keeps exactly the elements with the given key, and is never longer than the input. |
| Lists.KeyFilterCounts | src/components/studio/ClubSearch.tsx:82-85 | Every element with the key is kept as many times as it occurs in the input; the others are kept zero times. |
| Lists.KeyFilterSnoc | src/components/studio/GameList.tsx:128-139 | Pushing one more element extends exactly the list of its key. |
| Lists.KeyFilterSameKeys | src/components/studio/ClubSearch.tsx:82-85 | Filters whose keys agree on every element give the same list. |
| Lists.KeyFilterAll | src/components/studio/CanvasEditor.tsx:192 | When every element has the key, nothing is dropped. |
| Lists.IsSubsequenceReflexive | src/components/studio/ClubSearch.tsx:80 | Every list is a subsequence of itself (the unfiltered view). |
| Lists.KeyFilterIsSubsequence | src/components/studio/ClubSearch.tsx:82-85 | Filtering only deletes elements and keeps the order of the rest. |
| Lists.KeyFilterPartition3 | src/components/studio/GameList.tsx:128-139 | When every key is one of three distinct values, the three filtered lists together are a permutation of the input. |
| Lists.ConcatPairwise | src/components/studio/GameList.tsx:145-147 | Two ordered lists, each element of the first before each of the second, concatenate to an ordered list. |
| Lists.PairwiseSnoc | src/components/studio/ClubSearch.tsx:82-85 | Dropping the last element of an ordered list keeps it ordered, and every earlier element comes before the last. |
| Lists.KeyFilterPairwise | src/components/studio/ClubSearch.tsx:82-85 | Filtering an ordered list leaves it ordered. |
| Sorting.Insert | src/components/studio/GameList.tsx:141-143 | Inserting adds exactly one copy of the element. |
| Sorting.SortBy | src/components/studio/GameList.tsx:141-143 | The sorted list is a permutation of its input. |
| Sorting.SortByMembers | src/components/studio/GameList.tsx:141-143 | Sorting neither adds nor drops an element. |
| Sorting.InsertSorted | src/components/studio/GameList.tsx:141-143 | Inserting into an ordered list keeps it ordered under a total preorder. |
| Sorting.SortBySorted | src/components/studio/GameList.tsx:141-143 | Under a total-preorder comparator, every earlier element may come before every later one. |
| Sorting.EqualToBoth | src/components/studio/GameList.tsx:141-143 | An element ranked strictly after another is never ranked equal to the same key as it. |
| Sorting.InsertEqualRun | src/components/studio/GameList.tsx:141-143 | Inserting changes the run of elements ranked equal to a key only by putting the new element in front of it. |
| Sorting.SortByStable | src/components/studio/GameList.tsx:141-143 | The sort is stable: for every key, the elements ranked equal to it keep their input order. |
| Sorting.SortAllEqualIsIdentity | src/components/studio/GameList.tsx:142 | A list whose elements are all ranked equal is left unchanged. |
| Sorting.NameLeIsPreorder | src/components/studio/ClubSearch.tsx:62-64 | The by-name comparator is a total preorder. |
| Sorting.SortByName | src/components/studio/ClubSearch.tsx:62-64 | A by-name sort is a permutation of its input, alphabetical, and stable for equal names. |
| Studio.CurrentStep | src/pages/Studio.tsx:119-302 | The five body guards are exclusive and exhaustive: exactly one step is shown in every state. |
| Studio.TitleMatchesStep | src/pages/Studio.tsx:109-112 | Under the wizard invariant the toolbar has exactly one title fragment, and it belongs to the step shown. |
| Studio.TitleNeedsInvariant | src/pages/Studio.tsx:109-112 | Without the invariant, a club with no sport renders two title fragments. |
| Studio.Next | src/pages/Studio.tsx:49-102 | The game hand-over stores the ids and flags it is given. Every other handler empties the game ids and keeps the result flags. |
| Studio.NextPreservesInvariant | src/pages/Studio.tsx:49-102 | Every handler that its step enables keeps club ⇒ sport, team ⇒ club and games ⇒ team. It also keeps at most three distinct game ids. |
| Studio.NextClearsDownstream | src/pages/Studio.tsx:49-102 | Each handler clears exactly the fields downstream of what it sets and keeps those upstream. Only the game hand-over writes the result flags. |
| Studio.NextStep | src/pages/Studio.tsx:49-102 | Forward picks advance one step; an empty id is falsy and leaves the step in place. Back buttons go back one step. |
| Studio.BackUndoesPick | src/pages/Studio.tsx:58-102 | A back button restores the state before the forward pick it undoes, except for the result flags. |
| Studio.RunPreservesInvariant | src/pages/Studio.tsx:49-102 | Any sequence of enabled handler calls keeps the invariant. |
| Studio.StudioPage.constructor | src/pages/Studio.tsx:33-39 | The page starts with every field empty. |
| Studio.StudioPage.HandleSportChange | src/pages/Studio.tsx:49-56 | Sets the sport and empties club, team and games, as `Next` says. |
| Studio.StudioPage.HandleClubSelect | src/pages/Studio.tsx:58-64 | Sets the club and empties team and games; the sport is kept. |
| Studio.StudioPage.HandleTeamSelect | src/pages/Studio.tsx:66-70 | Sets the team and empties games; sport and club are kept. |
| Studio.StudioPage.HandleGameSelect | src/pages/Studio.tsx:72-75 | Stores the ids and result flags exactly as passed. The games argument is ignored. |
| Studio.StudioPage.HandleBackToSportSelection | src/pages/Studio.tsx:77-84 | Clears everything but the result flags. |
| Studio.StudioPage.HandleBackToClubSelection | src/pages/Studio.tsx:86-92 | Clears club, team and games; the sport is kept. |
| Studio.StudioPage.HandleBackToTeamSelection | src/pages/Studio.tsx:94-98 | Clears team and games; sport and club are kept. |
| Studio.StudioPage.HandleBackToGameSelection | src/pages/Studio.tsx:100-102 | Clears only the game ids. |
| GameListing.RemoveId | src/components/studio/GameList.tsx:75 | Removing an id keeps exactly the other ids. |
| GameListing.RemoveUniqueAt | src/components/studio/GameList.tsx:75 | In a duplicate-free list, removing an id deletes exactly its position and keeps the order of the rest. |
| GameListing.TailNoDuplicates | src/components/studio/GameList.tsx:75 | A duplicate-free list has a duplicate-free tail that does not contain its head. |
| GameListing.RemoveAbsent | src/components/studio/GameList.tsx:75 | Removing an absent id changes nothing. |
| GameListing.RemoveKeepsNoDuplicates | src/components/studio/GameList.tsx:75 | Removing keeps the list duplicate-free. |
| GameListing.RemoveAppend | src/components/studio/GameList.tsx:75-80 | Removing an id from a list with that id appended gives what removing it from the list gives. |
| GameListing.Toggle | src/components/studio/GameList.tsx:72-83 | The id ends up selected iff it was new and fewer than three were selected. Every other id keeps its membership, and a selection within the cap stays within it. |
| GameListing.ToggleEffect | src/components/studio/GameList.tsx:72-83 | A selected id is deleted at its position. At the cap a new id leaves the list as it is; below the cap it is appended. The id ends up selected iff it was new and below the cap. |
| GameListing.TogglePreservesSelectionOk | src/components/studio/GameList.tsx:72-83 | A toggle keeps the selection duplicate-free and at most three long. |
| GameListing.ToggleTwice | src/components/studio/GameList.tsx:72-83 | Toggling a new id twice below the cap restores the list exactly. Toggling any id twice restores the set of selected ids. |
| GameListing.ToggleAllPreservesSelectionOk | src/components/studio/GameList.tsx:61-83 | Any sequence of clicks keeps the selection duplicate-free and at most three long. |
| GameListing.FindGame | src/components/studio/GameList.tsx:91 | `find` returns the first game with the id, and nothing iff no game has it. |
| GameListing.HasResults | src/components/studio/GameList.tsx:90-93 | One flag per selected id, in selection order. A flag is true iff the first game with that id has a result that is non-empty and not "-:-". |
| GameListing.HasResultsExample | src/components/studio/GameList.tsx:90-93 | Results "2:1", "-:-" and "" give the flags true, false, false. |
| GameListing.ParseDate | src/components/studio/GameList.tsx:116-119 | A date parses iff it has the `DD.MM.YYYY` form; every parsed field is within its digit range. |
| GameListing.FormatDate | src/components/studio/GameList.tsx:116-119 | The `DD.MM.YYYY` text of an in-range date is well formed. |
| GameListing.DigitRoundTrip | src/components/studio/GameList.tsx:116-119 | A digit character and its value convert into each other. |
| GameListing.DivMod10 | src/components/studio/GameList.tsx:116-119 | `/ 10` and `% 10` undo appending a decimal digit. |
| GameListing.ParseFormatRoundTrip | src/components/studio/GameList.tsx:116-119 | Parsing the text of an in-range date gives the date back. |
| GameListing.FormatParseRoundTrip | src/components/studio/GameList.tsx:116-119 | Formatting a parsed well-formed date gives the text back. |
| GameListing.DayNumberOrdersCalendar | src/components/studio/GameList.tsx:128-136 | Comparing day numbers is calendar order (year, then month, then day), and equal numbers are equal dates. |
| GameListing.Classify | src/components/studio/GameList.tsx:128-139 | An unparseable date goes to the future bucket. A game is in today's bucket iff its date parses to today. |
| GameListing.ClassifyByCalendar | src/components/studio/GameList.tsx:128-139 | A game is past iff its date is before today, and today iff its date is today. It is future iff its date is after today or unparseable. |
| GameListing.InBucket | src/components/studio/GameList.tsx:128-139 | A bucket holds exactly the fetched games that classify into it. |
| GameListing.BucketsPartition | src/components/studio/GameList.tsx:128-139 | Every fetched game lands in exactly one bucket: the three buckets are a permutation of the fetched list. |
| GameListing.PartitionByDay | src/components/studio/GameList.tsx:124-139 | The `forEach` loop fills each bucket with its games, in fetch order. |
| GameListing.ComparatorsArePreorders | src/components/studio/GameList.tsx:141-143 | Both date comparators are total preorders. |
| GameListing.Arrange | src/components/studio/GameList.tsx:141-147 | With past games shown every fetched game is listed; without, the list is shorter by exactly the past bucket. |
| GameListing.ArrangeContents | src/components/studio/GameList.tsx:141-147 | With past games shown the list is a permutation of the fetched games; without, it is the fetched games minus the past bucket. |
| GameListing.ArrangeMembers | src/components/studio/GameList.tsx:141-147 | A game is shown iff it was fetched and either past games are shown or it is not past. |
| GameListing.ArrangeMember | src/components/studio/GameList.tsx:141-147 | The membership statement of `ArrangeMembers`, for one game. |
| GameListing.SortedBucketInOrder | src/components/studio/GameList.tsx:141-143 | A sorted bucket is in list order: past games latest first, today's and future games earliest first. |
| GameListing.SortedBucketClass | src/components/studio/GameList.tsx:141-143 | Sorting a bucket keeps it within that bucket. |
| GameListing.CrossBucketsInOrder | src/components/studio/GameList.tsx:145-147 | Every game of an earlier bucket may come before every game of a later one. |
| GameListing.ConcatBucketsInOrder | src/components/studio/GameList.tsx:145-147 | Concatenating the sorted past, today and future lists (or only the last two) gives a list in list order. |
| GameListing.ArrangeOrdered | src/components/studio/GameList.tsx:141-147 | The shown list has past games (latest first), then today's, then future games (earliest first). |
| GameListing.TodaySortKeepsFetchOrder | src/components/studio/GameList.tsx:142 | Today's games share one date, so their sort keeps fetch order. |
| GameListing.DatesInOrder | src/components/studio/GameList.tsx:204 | The key order of the grouped record lists no date twice. |
| GameListing.DatesInOrderCovers | src/components/studio/GameList.tsx:64-70 | The key order lists exactly the dates of the shown games. |
| GameListing.GamesOn | src/components/studio/GameList.tsx:64-70 | A date's group holds exactly the shown games of that date, each as many times as it is shown. |
| GameListing.DatesStep | src/components/studio/GameList.tsx:64-67 | One more game appends its date to the key order iff the date is new. |
| GameListing.GamesOnStep | src/components/studio/GameList.tsx:64-70 | One more game grows only its own date's group, by that game. A date not yet seen has no games. |
| GameListing.PushGameKeys | src/components/studio/GameList.tsx:64-70 | One `reduce` step keeps the record's keys equal to the key order. |
| GameListing.PushGameGroups | src/components/studio/GameList.tsx:64-70 | One `reduce` step keeps every group equal to the games of its date, and non-empty. |
| GameListing.GroupByDate | src/components/studio/GameList.tsx:64-70 | The `reduce` yields one non-empty group per date. Each group holds that date's games in list order, and keys follow first appearance. |
| GameListing.GameList.constructor | src/components/studio/GameList.tsx:57-60 | No games, loading, nothing selected, past games hidden; the selection invariant (at most three distinct ids) holds. |
| GameListing.GameList.HandleGameToggle | src/components/studio/GameList.tsx:72-83 | The selection becomes the toggle of the previous selection and keeps at most three distinct ids; nothing else changes. |
| GameListing.GameList.SetShowPastGames | src/components/studio/GameList.tsx:197 | The checkbox sets the flag and nothing else. |
| GameListing.GameList.HandleContinue | src/components/studio/GameList.tsx:85-96 | Nothing is handed over iff the selection is empty. Otherwise it hands over the selection (one to three distinct ids), a result flag per id and the fetched games. |
| GameListing.GameList.FetchGames | src/components/studio/GameList.tsx:104-158 | A failed fetch keeps the list. A successful one stores the arranged list. Loading ends false either way. |
| ClubSearching.FilterClubs | src/components/studio/ClubSearch.tsx:78-87 | A text that trims to nothing shows every club. Otherwise the clubs shown are exactly those whose name contains the text, ignoring case, each as many times as it occurs in the club list. |
| ClubSearching.FilterKeepsOrder | src/components/studio/ClubSearch.tsx:82-85 | The filtered list of an alphabetical club list is alphabetical. |
| ClubSearching.FilterIsSubsequence | src/components/studio/ClubSearch.tsx:78-87 | The filtered list is the club list with some clubs deleted, in the same order. |
| ClubSearching.MatchesLowerCase | src/components/studio/ClubSearch.tsx:83 | Lower-casing the search text does not change which clubs match. |
| ClubSearching.FilterIgnoresCase | src/components/studio/ClubSearch.tsx:78-87 | The search gives the same list for a text and its lower-case form. |
| ClubSearching.FilterNarrows | src/components/studio/ClubSearch.tsx:78-87 | Typing more characters never brings a club back. |
| ClubSearching.NothingToFilter | src/components/studio/ClubSearch.tsx:78-87 | An empty club list filters to an empty list. |
| ClubSearching.SortClubs | src/components/studio/ClubSearch.tsx:62-64 | The fetched clubs are sorted by name and form a permutation of what was fetched. |
| ClubSearching.ClubSearch.constructor | src/components/studio/ClubSearch.tsx:44-48 | No clubs, empty search, nothing selected, loading. |
| ClubSearching.ClubSearch.FetchClubs | src/components/studio/ClubSearch.tsx:50-76 | A failed fetch keeps the lists. A successful one stores the sorted clubs (empty when `data.clubs` is missing) and shows them all unless a search is active. Loading ends false. |
| ClubSearching.ClubSearch.SetSearchText | src/components/studio/ClubSearch.tsx:78-87 | A new search text re-filters the unchanged club list. |
| ClubSearching.ClubSearch.HandleClubSelect | src/components/studio/ClubSearch.tsx:89-92 | Marks the club as selected, so that exactly the rows with its id show the check mark, and forwards exactly its id and name. |
| TeamSearching.SortTeams | src/components/studio/TeamSearch.tsx:59-61 | The fetched teams are sorted by name and form a permutation of what was fetched. |
| TeamSearching.TeamSearch.constructor | src/components/studio/TeamSearch.tsx:44-45 | No teams, loading. |
| TeamSearching.TeamSearch.FetchTeams | src/components/studio/TeamSearch.tsx:47-72 | A failed fetch keeps the teams. A successful one stores the sorted teams (empty when `data.teams` is missing). Loading ends false. |
| TeamSearching.TeamSearch.SelectTeam | src/components/studio/TeamSearch.tsx:106 | A click forwards exactly that team's id and name. |
| Preview.SplitIds | src/components/studio/GamePreview.tsx:50-52 | Each slot is defined iff the id list is long enough for it. |
| Preview.SplitIdsKeepsFirstThree | src/components/studio/GamePreview.tsx:50-52 | The slots hold exactly the first three ids, in order. |
| Preview.ApiTypeInjective | src/components/studio/GamePreview.tsx:55-57 | Different sports are mapped to different API types. |
| Preview.FirstDash | src/components/studio/GamePreview.tsx:178 | The first '-' after a dash-free field is the separator. |
| Preview.DashJoinInjective | src/components/studio/GamePreview.tsx:178 | Joining a dash-free field to the rest with '-' can be undone. |
| Preview.RenderKey | src/components/studio/GamePreview.tsx:178 | The key starts with the first id and a '-', and ends with '-' and the theme. |
| Preview.RenderKeyFields | src/components/studio/GamePreview.tsx:178 | The key is the first id, the second and third ids or "single", and the theme, joined by '-'. |
| Preview.RenderKeyInjective | src/components/studio/GamePreview.tsx:178 | For one to three plain ids, different selections or themes give different keys. |
| Preview.RenderKeyNeedsPlainIds | src/components/studio/GamePreview.tsx:178 | An id spelled "single" gives the same key as a missing id. |
| Preview.AnyResult | src/components/studio/GamePreview.tsx:61 | `some(r => r)` holds iff some flag is true. |
| Preview.AutoSwitch | src/components/studio/GamePreview.tsx:60-65 | The effect never leaves the result tab. It ends on the result tab iff a flag is true or the tab was already open. |
| Preview.AutoSwitchIdempotent | src/components/studio/GamePreview.tsx:60-65 | Running the effect again with the same flags changes nothing. |
| Preview.DownloadSelector | src/components/studio/GamePreview.tsx:88-89 | The download looks for "game-preview" on the preview tab and "game-result" on the result tab. |
| Preview.GamePreview.constructor | src/components/studio/GamePreview.tsx:42-65 | Missing flags are the empty list. The theme starts as "kanva", and the tab starts on preview before the auto-switch effect runs. |
| Preview.GamePreview.SetResults | src/components/studio/GamePreview.tsx:60-65 | New flags re-run the auto-switch; the theme is kept. |
| Preview.GamePreview.SelectTab | src/components/studio/GamePreview.tsx:150-158 | The preview tab can always be chosen; the result tab only while some flag is true. |
| Preview.GamePreview.SelectTheme | src/components/studio/GamePreview.tsx:137-146 | A standard theme is selected; tabs and flags are kept. |
| AppShell.DeepLinkTarget | src/App.tsx:104-118 | No navigation iff the URL is not an auth callback. A callback goes to "/tabs/profile" followed by the URL's suffix from its first '#', or by nothing when there is no '#'. |
| AppShell.DeepLinkStaysOnProfile | src/App.tsx:108-118 | A deep-link target is the profile path, possibly followed by a fragment. |
| AppShell.AccessTokenKeepsFragment | src/App.tsx:104-110 | A URL containing "#access_token=" always takes the fragment branch. |
| AppShell.Route | src/App.tsx:60-88 | A spinner iff auth is loading. Otherwise "/login", "/tabs" and their sub-paths get their pages, and only the exact "/" redirects. |
| AppShell.RootReachesStudio | src/App.tsx:80-88 | Once auth has loaded, "/" redirects to "/tabs/studio", which the tabs serve. |
| Registration.Validate | src/pages/Register.tsx:36-46 | Mismatched passwords report the mismatch, even when short. Matching passwords shorter than six report the length. Only matching passwords of at least six pass. |
| Registration.RegisterPage.constructor | src/pages/Register.tsx:21-27 | Empty fields, no error, not loading, no success. |
| Registration.RegisterPage.HandleRegister | src/pages/Register.tsx:31-60 | A failed check sets its message and makes no sign-up call. Otherwise sign-up is called exactly once; its error is shown, or success schedules "/login". Loading ends false. |
| Canvas.HitTest | src/components/studio/CanvasEditor.tsx:142-144 | Nothing iff no element's closed rectangle contains the point. Otherwise the first element, in list order, that contains it. |
| Canvas.ClickSelection | src/components/studio/CanvasEditor.tsx:142-146 | A click selects the non-empty id of the first element hit, or nothing. |
| Canvas.WithoutId | src/components/studio/CanvasEditor.tsx:192 | Deleting keeps exactly the elements with another id, each as many times as it occurs. |
| Canvas.WithoutIdKeepsOrder | src/components/studio/CanvasEditor.tsx:191-194 | Deleting keeps the other elements in their order. |
| Canvas.DeleteUndoesAdd | src/components/studio/CanvasEditor.tsx:154-194 | Deleting an element just added with a fresh id restores the list. |
| Canvas.CanvasEditor.constructor | src/components/studio/CanvasEditor.tsx:30-31 | No elements, nothing selected. |
| Canvas.CanvasEditor.AddText | src/components/studio/CanvasEditor.tsx:154-167 | Appends the default text element and keeps the others. |
| Canvas.CanvasEditor.AddShape | src/components/studio/CanvasEditor.tsx:173-184 | Appends the default shape element and keeps the others. |
| Canvas.CanvasEditor.DeleteSelected | src/components/studio/CanvasEditor.tsx:188-194 | Offered only with a selection. It removes every element with the selected id and clears the selection. |
| Canvas.CanvasEditor.HandleCanvasClick | src/components/studio/CanvasEditor.tsx:133-147 | The selection becomes the click selection; the elements are kept. |
| Canvas.CanvasEditor.GetData | src/components/studio/CanvasEditor.tsx:115-117 | Returns the current element list and no background. |
| Canvas.CanvasEditor.LoadData | src/components/studio/CanvasEditor.tsx:118-120 | The element list becomes the given list, or empty when it is missing. |

## Left out

- Network: `fetch`, the endpoint URL templates and `response.json()` are left out. A fetch is a `FetchResult` input: failure, or the `data.<field>` list present or absent.
- Auth and the auth pages: the Supabase client, `AuthContext`, the login and profile pages, and the `signUp` call itself are left out. Its error answer is an input of `HandleRegister`.
- Rendering: the preview web component's script loading, `shadowRoot` querying and SVG download are left out. So are the canvas drawing (`drawCanvas`, `drawGrid`, `drawText`, `drawShape`) and `exportImage`, which use floating point and trigonometry.
- Canvas ids: the editor's ids come from `Date.now()`; they are parameters, and their uniqueness is not modelled.
- Click coordinates: they are integers here; the source computes fractional canvas coordinates.
- Dates: "today" is a parameter, and a date is compared as a (year, month, day) triple. JavaScript `Date` normalisation of out-of-range days and months is not modelled. Neither is the rule of `new Date(y, m, d)` that maps years 0 to 99 to 1900 + y, so "01.01.0024" is the year 24 here and 1924 in the source.
- GameListing.ParseDate: only text of the exact `DD.MM.YYYY` form parses, and anything else lands in the future bucket. For text that yields NaN that matches the source, whose comparisons with NaN are all false. Short forms such as "1.2.2024" differ: `parseInt` reads them as a date (1 February 2024), and the source puts them in that date's bucket, while the model sends them to the future bucket.
- GameListing.SortKey: the sort key of an unparseable date is 0, where the source's comparator returns NaN, whose effect on `sort` is implementation-defined.
- Collation: `localeCompare` is replaced by code-point order of names (`JsStrings.LexLe`). It is a total order like the locale order, but it ranks accented and upper/lower-case letters differently.
- JsStrings.ToLowerCase: lowers ASCII and Latin-1 capitals only, not the full Unicode case mapping. String lengths count code points rather than UTF-16 units.
- GameListing.DatesInOrder: `Object.entries` lists integer-like keys first, in numeric order. The model keeps insertion order, which is what `DD.MM.YYYY` keys get.
- The `initialSelectedGameIds` prop and its effect are not modelled; the Studio never passes it, so the selection starts empty.
- Concurrency and timing: stale in-flight fetches, the search bar debounce and React effect scheduling are left out. Each handler is one atomic update. Effects that only recompute local state (the club filter, the auto-switch of the preview tab) are folded into the method that changes their inputs. The re-fetch that the "show past games" checkbox triggers is not: `SetShowPastGames` only sets the flag, and the fetch is the separate `FetchGames`. The delayed redirect after registration is the `pendingNavigation` field.
- Routing: the router's case-insensitive path matching and the pages behind the routes are left out.
- In-place sorting: the source's `sort` on the fetched arrays is modelled on sequence values (`Sorting.SortBy`), so aliasing of the sorted array is not captured.
- Preview.ApiType: has no `ensures` of its own. The mapping is its three-way definition, and `Preview.ApiTypeInjective` states that it separates the sports.
- Preview.GamePreview.SetResults: when the flags become all false the result tab stays active, as in the source; the model does not force it back.
- Studio.StudioPage.HandleGameSelect: takes the fetched games as an argument and ignores them, as the page does.
- ClubSearching.FilterClubs: matches the untrimmed search text, as the source does. Its `trim() === ''` test is evaluated as "all whitespace", which `JsStrings.TrimEmptyIffBlank` proves equivalent.
- Rendering-only emphasis: the multi-game-day highlight of a date group and the league note under a team are not modelled; neither changes state or what is handed over.
- Static tables: translations, the language context, tab chrome, the home page and the Capacitor configuration are not part of this model.
