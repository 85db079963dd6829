/**
 * The launcher's main view (`MainView`): which game is selected and how the
 * two list boxes show it, which game tiles the search box leaves visible, the
 * guard against a late background image, the game count line, and the order
 * of the boxes in the plugin sidebar.
 */
module Views {
  import opened Wrappers
  import opened Text
  import opened Commands

  /** A game tile (`GameViewSmall`) and the facts about its game the view reads. */
  class GameView {
    const gameName: string
    const sourceShortName: string   // `Game.Source.ShortServiceName`
    const installed: bool           // `Game.InstalledStatus == Installed`
    var isVisible: bool             // set by `SetVisibility`
    var isSelected: bool            // set by `Selected` / `Deselected`

    constructor (gameName: string, sourceShortName: string, installed: bool)
      ensures this.gameName == gameName && this.sourceShortName == sourceShortName
      ensures this.installed == installed && isVisible && !isSelected
    {
      this.gameName := gameName;
      this.sourceShortName := sourceShortName;
      this.installed := installed;
      isVisible := true;
      isSelected := false;
    }
  }

  /** A list box's `SelectedItem`: nothing, a game tile, or some other object. */
  datatype ListItem = NoItem | ViewItem(view: GameView) | OtherItem

  datatype ListBoxId = InstalledListBox | NotInstalledListBox

  /** A sidebar box (`BoxCommandView`): a title over a list of commands. */
  datatype BoxCommandView = BoxCommandView(title: string, commands: seq<Command>)

  /**
   * A loaded game source as the sidebar sees it; `globalCommands` is what
   * the plugin middleware returned for it.
   */
  datatype GameSourceInfo = GameSourceInfo(serviceName: string, version: string, globalCommands: seq<Command>)

  /**
   * The search filter of `ApplySearch`: a blank search shows every tile,
   * otherwise a tile shows when its game name or its source's short name
   * contains the text, ignoring case.
   */
  predicate ShownBySearch(text: Option<string>, gameName: string, sourceShortName: string)
  {
    || IsNullOrWhiteSpace(text)
    || ContainsIgnoreCase(gameName, text.value)
    || ContainsIgnoreCase(sourceShortName, text.value)
  }

  /** The text with its ASCII letters upper-cased. */
  function UpperAscii(t: string): (r: string)
    ensures |r| == |t| && forall k :: 0 <= k < |t| ==> r[k] == FoldCase(t[k])
  {
    seq(|t|, k requires 0 <= k < |t| => FoldCase(t[k]))
  }

  /** The case the search is typed in makes no difference to what it shows. */
  lemma SearchIgnoresCase(t: string, gameName: string, sourceShortName: string)
    ensures ShownBySearch(Some(t), gameName, sourceShortName)
        == ShownBySearch(Some(UpperAscii(t)), gameName, sourceShortName)
  {
    var u := UpperAscii(t);
    assert AllWhiteSpace(t) == AllWhiteSpace(u);
    forall s: string, i | 0 <= i && i + |t| <= |s|
      ensures MatchesAt(s, t, i) == MatchesAt(s, u, i)
    {
    }
    assert ContainsIgnoreCase(gameName, t) == ContainsIgnoreCase(gameName, u);
    assert ContainsIgnoreCase(sourceShortName, t) == ContainsIgnoreCase(sourceShortName, u);
  }

  /** A tile whose game name contains the search text stays visible. */
  lemma NameContainingSearchShown(t: string, before: string, after: string, sourceShortName: string)
    ensures ShownBySearch(Some(t), before + t + after, sourceShortName)
  {
    var name := before + t + after;
    forall k | 0 <= k < |t| ensures FoldCase(name[|before| + k]) == FoldCase(t[k]) {
      assert name[|before| + k] == t[k];
    }
    assert MatchesAt(name, t, |before|);
  }

  /** `GameCountText`: empty until the games are loaded, then the two counts. */
  function GameCountText(gameCount: Option<nat>, installedCount: nat): (r: string)
    ensures r == "" <==> gameCount.None?
  {
    if gameCount.None? then ""
    else "Found " + NatToString(gameCount.value) + " games, " + NatToString(installedCount) + " installed"
  }

  /** Equal strings with equal-length prefixes have equal remainders. */
  lemma DropEqualPrefix(p1: string, s1: string, p2: string, s2: string)
    requires p1 + s1 == p2 + s2 && |p1| == |p2|
    ensures s1 == s2
  {
    assert s1 == (p1 + s1)[|p1|..];
    assert s2 == (p2 + s2)[|p2|..];
  }

  /** Equal strings with equal-length suffixes have equal beginnings. */
  lemma DropEqualSuffix(s1: string, q1: string, s2: string, q2: string)
    requires s1 + q1 == s2 + q2 && |q1| == |q2|
    ensures s1 == s2
  {
    assert s1 == (s1 + q1)[..|s1|];
    assert s2 == (s2 + q2)[..|s2|];
  }

  /** The count line determines both counts: different counts never read the same. */
  lemma GameCountTextInjective(games1: nat, installed1: nat, games2: nat, installed2: nat)
    requires GameCountText(Some(games1), installed1) == GameCountText(Some(games2), installed2)
    ensures games1 == games2 && installed1 == installed2
  {
    var a1, b1 := NatToString(games1), NatToString(installed1);
    var a2, b2 := NatToString(games2), NatToString(installed2);
    var rest1 := " games, " + (b1 + " installed");
    var rest2 := " games, " + (b2 + " installed");
    assert GameCountText(Some(games1), installed1) == "Found " + (a1 + rest1);
    assert GameCountText(Some(games2), installed2) == "Found " + (a2 + rest2);
    DropEqualPrefix("Found ", a1 + rest1, "Found ", a2 + rest2);
    DigitPrefixUnique(a1, rest1, a2, rest2);
    NatToStringInjective(games1, games2);
    DropEqualPrefix(" games, ", b1 + " installed", " games, ", b2 + " installed");
    DropEqualSuffix(b1, " installed", b2, " installed");
    NatToStringInjective(installed1, installed2);
  }

  /**
   * The sidebar of `GenerateNewMenuItems`: one box per game source, in source
   * order, titled "<service> - <version>", then the launcher's own box.
   */
  function MenuBoxes(sources: seq<GameSourceInfo>, appVersion: string, countText: string, bootProfiles: seq<Command>)
    : (r: seq<BoxCommandView>)
    ensures |r| == |sources| + 1
    ensures forall i :: 0 <= i < |sources| ==>
              r[i] == BoxCommandView(sources[i].serviceName + " - " + sources[i].version, sources[i].globalCommands)
    ensures r[|sources|].title == "Alfae " + appVersion
    ensures Labels(r[|sources|].commands) == [countText, "Open configuration folder", "Open games folder", "Boot Profiles"]
    ensures r[|sources|].commands[3].subCommands == bootProfiles
  {
    seq(|sources|, i requires 0 <= i < |sources| =>
          BoxCommandView(sources[i].serviceName + " - " + sources[i].version, sources[i].globalCommands))
    + [BoxCommandView("Alfae " + appVersion,
         [Info(countText),
          Do("Open configuration folder", OpenFolder(AppConfigDir)),
          Do("Open games folder", OpenFolder(AppGameDir)),
          Command("Boot Profiles", NoAction, bootProfiles)])]
  }

  class MainView {
    var gameViews: seq<GameView>          // the launcher's `GameViews`
    var searchText: Option<string>        // `SearchBox.Text`
    var currentSelection: GameView?       // `_currentSelection`
    var installedItem: ListItem           // `InstalledListBox.SelectedItem`
    var notInstalledItem: ListItem        // `NotInstalledListBox.SelectedItem`
    var background: Option<seq<bv8>>      // `Background.Source`: the image shown, if any
    var sidebar: seq<BoxCommandView>      // `PluginSideBar.Children`

    constructor (views: seq<GameView>)
      ensures gameViews == views && searchText == None && currentSelection == null
      ensures installedItem == NoItem && notInstalledItem == NoItem && background == None && sidebar == []
    {
      gameViews := views;
      searchText := None;
      currentSelection := null;
      installedItem := NoItem;
      notInstalledItem := NoItem;
      background := None;
      sidebar := [];
    }

    function Item(box: ListBoxId): ListItem
      reads this
    {
      if box == InstalledListBox then installedItem else notInstalledItem
    }

    /**
     * The list boxes show the selection: the box for its install status holds
     * it and the other holds nothing.
     */
    ghost predicate SelectionShown()
      reads this
    {
      currentSelection != null ==>
        && installedItem == (if currentSelection.installed then ViewItem(currentSelection) else NoItem)
        && notInstalledItem == (if currentSelection.installed then NoItem else ViewItem(currentSelection))
    }

    /** A box whose item is nothing or the current selection: its change event is an echo. */
    ghost predicate EchoesSelection(box: ListBoxId)
      reads this
    {
      Item(box).NoItem? || (Item(box).ViewItem? && Item(box).view == currentSelection)
    }

    /**
     * `SetNewSelection`: selecting the current selection again does nothing;
     * otherwise the old tile is deselected, `g` selected and shown in the box
     * for its install status, and the background cleared until `g`'s image
     * arrives (the synchronous part of `SetBgImage`).
     */
    method SetNewSelection(g: GameView)
      modifies this, g, currentSelection
      ensures old(currentSelection) == g ==> unchanged(this, g)
      ensures old(currentSelection) != g ==>
                && currentSelection == g && g.isSelected && SelectionShown() && background == None
                && (old(currentSelection) != null ==> !old(currentSelection).isSelected)
      ensures gameViews == old(gameViews) && searchText == old(searchText) && sidebar == old(sidebar)
      ensures g.isVisible == old(g.isVisible)
      ensures old(currentSelection) != null ==> old(currentSelection).isVisible == old(currentSelection.isVisible)
    {
      if currentSelection != null {
        if currentSelection == g {
          return;
        }
        currentSelection.isSelected := false;
      }
      currentSelection := g;
      g.isSelected := true;
      if g.installed {
        installedItem := ViewItem(g);
        notInstalledItem := NoItem;
      } else {
        installedItem := NoItem;
        notInstalledItem := ViewItem(g);
      }
      background := None;
    }

    /** The tiles a list box's item may name. */
    function ItemViews(box: ListBoxId): set<GameView>
      reads this
    {
      if Item(box).ViewItem? then {Item(box).view} else {}
    }

    /**
     * `MonitorListBox`, run on a box's selection change: a game tile in the
     * box becomes the selection; anything else is ignored. The writes of
     * `SetNewSelection` fire this again on the boxes it sets, and those echoes
     * change nothing.
     */
    method MonitorListBox(box: ListBoxId)
      modifies this, currentSelection, ItemViews(box)
      ensures !old(Item(box)).ViewItem? ==> unchanged(this)
      ensures old(EchoesSelection(box)) ==> unchanged(this)
      ensures old(Item(box)).ViewItem? ==> currentSelection == old(Item(box)).view
      ensures old(Item(box)).ViewItem? && old(Item(box)).view != old(currentSelection) ==>
                && currentSelection.isSelected && SelectionShown() && background == None
                && (old(currentSelection) != null ==> !old(currentSelection).isSelected)
      ensures (!old(Item(box)).ViewItem? || old(EchoesSelection(box))) && old(currentSelection) != null ==>
                unchanged(old(currentSelection))
      ensures old(Item(box)).ViewItem? ==> old(Item(box)).view.isVisible == old(Item(box).view.isVisible)
      ensures old(currentSelection) != null ==> old(currentSelection).isVisible == old(currentSelection.isVisible)
      ensures gameViews == old(gameViews) && searchText == old(searchText) && sidebar == old(sidebar)
    {
      var item := Item(box);
      if !item.ViewItem? {
        return;
      }
      SetNewSelection(item.view);
    }

    /**
     * The continuation of `SetBgImage` once the image for `requestedFor` has
     * been fetched (`image` is None when the game has no background): it is
     * shown only if `requestedFor` is still the selection.
     */
    method BackgroundArrived(requestedFor: GameView, image: Option<seq<bv8>>)
      modifies this`background
      ensures background == if image.Some? && currentSelection == requestedFor then image else old(background)
    {
      if image.Some? && currentSelection == requestedFor {
        background := image;
      }
    }

    /**
     * `ApplySearch`: every tile's visibility is set from the search filter;
     * no tile is added, removed or otherwise changed.
     */
    method ApplySearch()
      modifies set v | v in gameViews
      ensures forall v :: v in gameViews ==> v.isVisible == ShownBySearch(searchText, v.gameName, v.sourceShortName)
      ensures forall v :: v in gameViews ==> v.isSelected == old(v.isSelected)
    {
      for i := 0 to |gameViews|
        invariant forall j :: 0 <= j < i ==>
                    gameViews[j].isVisible == ShownBySearch(searchText, gameViews[j].gameName, gameViews[j].sourceShortName)
        invariant forall v :: v in gameViews ==> v.isSelected == old(v.isSelected)
      {
        var v := gameViews[i];
        v.isVisible := ShownBySearch(searchText, v.gameName, v.sourceShortName);
      }
    }

    /**
     * `GenerateNewMenuItems`: the sidebar is cleared and refilled with the
     * boxes of `MenuBoxes`, the launcher's box carrying the game count line.
     */
    method GenerateNewMenuItems(sources: seq<GameSourceInfo>, appVersion: string,
                                gameCount: Option<nat>, installedCount: nat, bootProfiles: seq<Command>)
      modifies this`sidebar
      ensures sidebar == MenuBoxes(sources, appVersion, GameCountText(gameCount, installedCount), bootProfiles)
    {
      sidebar := [];
      sidebar := sidebar + MenuBoxes(sources, appVersion, GameCountText(gameCount, installedCount), bootProfiles);
    }
  }

  /**
   * A background image that arrives for a game the user has already moved
   * away from is dropped: the newer selection's cleared background stays.
   */
  method LateImageForFormerSelection(view: MainView, first: GameView, second: GameView, image: seq<bv8>)
    requires first != second
    modifies view, first, second, view.currentSelection
    ensures view.currentSelection == second && view.background == None
  {
    view.SetNewSelection(first);
    view.SetNewSelection(second);
    view.BackgroundArrived(first, Some(image));
  }
}
