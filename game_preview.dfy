/** The preview step of the Studio: how the selected game ids are handed to the
    rendering web component (the id slots, the API type, the render key), the
    template themes, and the preview / result tabs. */
module Preview {
  import opened Common
  import opened JsStrings

  // ---------------------------------------------------------------------------
  // Id slots

  /** `gameId`, `gameId2` and `gameId3`: the first three selected ids, each
      absent (`undefined`) when the list is too short. */
  datatype Slots = Slots(gameId: Option<string>, gameId2: Option<string>, gameId3: Option<string>)

  function Slot(ids: seq<string>, i: nat): Option<string> {
    if i < |ids| then Some(ids[i]) else None
  }

  function SplitIds(ids: seq<string>): (r: Slots)
    ensures r.gameId.Some? <==> |ids| > 0
    ensures r.gameId2.Some? <==> |ids| > 1
    ensures r.gameId3.Some? <==> |ids| > 2
  {
    Slots(Slot(ids, 0), Slot(ids, 1), Slot(ids, 2))
  }

  /** The ids the slots hold, in slot order. */
  function SlotIds(s: Slots): seq<string> {
    (if s.gameId.Some? then [s.gameId.value] else [])
    + (if s.gameId2.Some? then [s.gameId2.value] else [])
    + (if s.gameId3.Some? then [s.gameId3.value] else [])
  }

  /** The slots hold exactly the first three selected ids, in order. */
  lemma SplitIdsKeepsFirstThree(ids: seq<string>)
    ensures SlotIds(SplitIds(ids)) == ids[..if |ids| < 3 then |ids| else 3]
  {
    if |ids| >= 3 {
      assert ids[..3] == [ids[0], ids[1], ids[2]];
    } else if |ids| == 2 {
      assert ids[..2] == [ids[0], ids[1]];
    } else if |ids| == 1 {
      assert ids[..1] == [ids[0]];
    }
  }

  // ---------------------------------------------------------------------------
  // API type

  /** The `type` attribute of the web component. */
  function ApiType(sport: Sport): string {
    if sport == Unihockey then "swissunihockey"
    else if sport == Volleyball then "swissvolley"
    else "swisshandball"
  }

  /** Different sports are sent to different endpoints. */
  lemma ApiTypeInjective(a: Sport, b: Sport)
    requires ApiType(a) == ApiType(b)
    ensures a == b
  {
    assert "swissunihockey"[5] == 'u' && "swissvolley"[5] == 'v' && "swisshandball"[5] == 'h';
    assert ApiType(a)[5] == ApiType(b)[5];
  }

  // ---------------------------------------------------------------------------
  // Render key

  /** `${v}` of a possibly undefined string. */
  function Interpolate(v: Option<string>): string {
    if v.Some? then v.value else "undefined"
  }

  /** `${v || 'single'}`: an absent or empty id is written "single". */
  function OrSingle(v: Option<string>): string {
    if v.Some? && v.value != "" then v.value else "single"
  }

  /** The `key` of the rendered component: it changes, and the component is
      re-created, when the selection or the theme changes. */
  function RenderKey(ids: seq<string>, theme: string): (r: string)
    ensures |ids| > 0 ==> ids[0] + "-" <= r
    ensures |r| > |theme| && r[|r| - |theme| - 1..] == "-" + theme
  {
    var s := SplitIds(ids);
    Interpolate(s.gameId) + "-" + OrSingle(s.gameId2) + "-" + OrSingle(s.gameId3) + "-" + theme
  }

  /** In `a + "-" + rest` with `a` dash-free, the first '-' is the one after `a`. */
  lemma FirstDash(a: string, rest: string)
    requires '-' !in a
    ensures IndexOf(a + "-" + rest, '-') == |a|
  {
    var s := a + "-" + rest;
    var i := IndexOf(s, '-');
    forall j | 0 <= j < |a| ensures s[j] != '-' {
      assert s[j] == a[j];
    }
    forall j | 0 <= j < i ensures s[j] != '-' {
      assert s[..i][j] == s[j];
    }
    assert s[|a|] == '-';
  }

  /** Joining a dash-free field to the rest with '-' can be undone. */
  lemma DashJoinInjective(a1: string, rest1: string, a2: string, rest2: string)
    requires '-' !in a1 && '-' !in a2
    requires a1 + "-" + rest1 == a2 + "-" + rest2
    ensures a1 == a2 && rest1 == rest2
  {
    var s := a1 + "-" + rest1;
    FirstDash(a1, rest1);
    FirstDash(a2, rest2);
    assert s[..|a1|] == a1 && s[|a1| + 1..] == rest1;
    assert (a2 + "-" + rest2)[..|a2|] == a2 && (a2 + "-" + rest2)[|a2| + 1..] == rest2;
  }

  /** An id the key can carry unambiguously: non-empty, without '-', not "single". */
  predicate PlainId(id: string) {
    id != "" && '-' !in id && id != "single"
  }

  predicate PlainSelection(ids: seq<string>) {
    0 < |ids| <= 3 && forall i :: 0 <= i < |ids| ==> PlainId(ids[i])
  }

  /** The second and third field of the key: the id, or "single" when there is none. */
  function KeyField(ids: seq<string>, i: nat): string {
    if i < |ids| then ids[i] else "single"
  }

  lemma RenderKeyFields(ids: seq<string>, theme: string)
    requires PlainSelection(ids)
    ensures RenderKey(ids, theme) == ids[0] + "-" + (KeyField(ids, 1) + "-" + (KeyField(ids, 2) + "-" + theme))
    ensures '-' !in ids[0] && '-' !in KeyField(ids, 1) && '-' !in KeyField(ids, 2)
    ensures KeyField(ids, 1) == "single" <==> |ids| < 2
    ensures KeyField(ids, 2) == "single" <==> |ids| < 3
  {
    assert '-' !in "single";
    assert PlainId(ids[0]);
    if |ids| > 1 { assert PlainId(ids[1]); }
    if |ids| > 2 { assert PlainId(ids[2]); }
  }

  /** For selections of one to three plain ids, two different selections (or
      themes) never share a key, so a change always re-creates the component. */
  lemma RenderKeyInjective(ids1: seq<string>, theme1: string, ids2: seq<string>, theme2: string)
    requires PlainSelection(ids1) && PlainSelection(ids2)
    requires RenderKey(ids1, theme1) == RenderKey(ids2, theme2)
    ensures ids1 == ids2 && theme1 == theme2
  {
    RenderKeyFields(ids1, theme1);
    RenderKeyFields(ids2, theme2);
    var b1, c1 := KeyField(ids1, 1), KeyField(ids1, 2);
    var b2, c2 := KeyField(ids2, 1), KeyField(ids2, 2);
    DashJoinInjective(ids1[0], b1 + "-" + (c1 + "-" + theme1), ids2[0], b2 + "-" + (c2 + "-" + theme2));
    DashJoinInjective(b1, c1 + "-" + theme1, b2, c2 + "-" + theme2);
    DashJoinInjective(c1, theme1, c2, theme2);
    assert |ids1| == |ids2|;
    forall i | 0 <= i < |ids1| ensures ids1[i] == ids2[i] {
      assert i == 0 || ids1[i] == KeyField(ids1, i);
    }
  }

  /** An id spelled "single" is not told apart from a missing one. */
  lemma RenderKeyNeedsPlainIds()
    ensures RenderKey(["7", "single"], "kanva") == RenderKey(["7"], "kanva")
  {
  }

  // ---------------------------------------------------------------------------
  // Themes and tabs

  datatype Theme = Theme(value: string, themeLabel: string)

  /** The template themes on offer. */
  const StandardThemes: seq<Theme> := [Theme("kanva", "KANVA"), Theme("kanva-light", "KANVA Light"), Theme("kanva-dark", "KANVA Dark")]

  predicate IsStandardTheme(value: string) {
    exists i :: 0 <= i < |StandardThemes| && StandardThemes[i].value == value
  }

  datatype Tab = PreviewTab | ResultTab

  /** `gamesHaveResults.some(r => r)`. */
  function AnyResult(flags: seq<bool>): (r: bool)
    ensures r <==> exists i :: 0 <= i < |flags| && flags[i]
  {
    if flags == [] then false
    else if flags[0] then true
    else
      var r := AnyResult(flags[1..]);
      assert forall i :: 1 <= i < |flags| ==> flags[i] == flags[1..][i - 1];
      r
  }

  /** The auto-switch effect: the preview tab turns into the result tab once
      some selected game has a result. */
  function AutoSwitch(tab: Tab, flags: seq<bool>): (r: Tab)
    ensures tab == ResultTab ==> r == ResultTab
    ensures r == ResultTab <==> tab == ResultTab || true in flags
  {
    assert AnyResult(flags) <==> true in flags by {
      if AnyResult(flags) {
        var i :| 0 <= i < |flags| && flags[i];
        assert flags[i] in flags;
      }
    }
    assert (AnyResult(flags) && tab == PreviewTab) || tab == ResultTab <==> tab == ResultTab || true in flags;
    if AnyResult(flags) && tab == PreviewTab then ResultTab else tab
  }

  /** Running the effect again, with the same flags, changes nothing. */
  lemma AutoSwitchIdempotent(tab: Tab, flags: seq<bool>)
    ensures AutoSwitch(AutoSwitch(tab, flags), flags) == AutoSwitch(tab, flags)
  {
  }

  /** The element the download button looks for on each tab. */
  function DownloadSelector(tab: Tab): (r: string)
    ensures r == "game-preview" <==> tab.PreviewTab?
    ensures r == "game-result" <==> tab.ResultTab?
  {
    if tab.PreviewTab? then "game-preview" else "game-result"
  }

  class GamePreview {
    var gamesHaveResults: seq<bool>
    var activeTab: Tab
    var selectedTheme: string

    /** The theme is one of those on offer. */
    predicate Valid()
      reads this
    {
      IsStandardTheme(selectedTheme)
    }

    /** The result tab can be clicked when some selected game has a result. */
    predicate ResultTabEnabled()
      reads this
    {
      AnyResult(gamesHaveResults)
    }

    /** Mounting: the preview tab and the "kanva" theme, then the auto-switch
        effect. Missing flags default to the empty list. */
    constructor (flags: Option<seq<bool>>)
      ensures Valid()
      ensures gamesHaveResults == flags.GetOr([]) && selectedTheme == "kanva"
      ensures activeTab == AutoSwitch(PreviewTab, gamesHaveResults)
    {
      gamesHaveResults := flags.GetOr([]);
      selectedTheme := "kanva";
      activeTab := PreviewTab;
      new;
      assert StandardThemes[0].value == "kanva";
      if AnyResult(gamesHaveResults) && activeTab == PreviewTab {
        activeTab := ResultTab;
      }
    }

    /** New flags re-run the auto-switch effect. */
    method SetResults(flags: seq<bool>)
      requires Valid()
      modifies this
      ensures Valid()
      ensures gamesHaveResults == flags && activeTab == AutoSwitch(old(activeTab), flags)
      ensures selectedTheme == old(selectedTheme)
    {
      gamesHaveResults := flags;
      if AnyResult(gamesHaveResults) && activeTab == PreviewTab {
        activeTab := ResultTab;
      }
    }

    /** A click on a tab button; the disabled result button does nothing. */
    method SelectTab(tab: Tab)
      requires Valid()
      modifies this
      ensures Valid()
      ensures tab == ResultTab && !ResultTabEnabled() ==> activeTab == old(activeTab)
      ensures tab == PreviewTab || ResultTabEnabled() ==> activeTab == tab
      ensures gamesHaveResults == old(gamesHaveResults) && selectedTheme == old(selectedTheme)
    {
      if tab == PreviewTab || AnyResult(gamesHaveResults) {
        activeTab := tab;
      }
    }

    /** Choosing a theme in the select, whose options are the standard themes. */
    method SelectTheme(value: string)
      requires Valid() && IsStandardTheme(value)
      modifies this
      ensures Valid()
      ensures selectedTheme == value
      ensures gamesHaveResults == old(gamesHaveResults) && activeTab == old(activeTab)
    {
      selectedTheme := value;
    }
  }
}
