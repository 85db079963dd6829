/**
 * The command surfaces of the Epic Games source: the per-game list
 * (`GetGameCommands`), the source-wide list (`GetGlobalCommands`) and the
 * buttons offered when a launch fails (the catch block of `Launch`).
 */
module LegendaryCommands {
  import opened Wrappers
  import opened Text
  import opened Commands
  import opened LegendaryModel

  const WikiUrl := "https://github.com/suchmememanyskill/Alfae/wiki/Epic-Games-Integration"
  const FreeGamesUrl := "https://www.epicgames.com/store/en-US/free-games"

  /** Some command of the list carries the given label. */
  predicate HasLabel(commands: seq<Command>, name: string)
  {
    exists i :: 0 <= i < |commands| && commands[i].name == name
  }

  /** The commands of a game that is not installed (source lines 61-74). */
  function NotInstalledCommands(g: LegendaryGame): (r: seq<Command>)
    ensures |r| == 3 || |r| == 4
    ensures r[0] == (if g.fromOrigin then Do("Play on Origin", LaunchGame(false)) else Do("Install", StartInstall))
    ensures r[1] == Do("Show in browser", ShowInBrowser) && r[2] == Do("Import", ShowImportDialog)
    ensures |r| == 4 <==> g.size == 0 && !g.fromOrigin
    ensures |r| == 4 ==> r[3] == Do("Get game install size", FetchInstallSize)
  {
    [if g.fromOrigin then Do("Play on Origin", LaunchGame(false)) else Do("Install", StartInstall),
     Do("Show in browser", ShowInBrowser),
     Do("Import", ShowImportDialog)]
    + (if g.size == 0 && !g.fromOrigin then [Do("Get game install size", FetchInstallSize)] else [])
  }

  /** The six commands every installed game gets, after the optional "Update". */
  function InstalledTail(g: LegendaryGame): seq<Command>
  {
    [Do(if g.isRunning then "Running" else "Launch", LaunchGame(false)),
     Do("Config/Info", ShowConfigForm),
     Do("View in browser", ShowInBrowser),
     Do("Verify", VerifyGame),
     Do("Move", ShowMoveDialog),
     Do("Uninstall", ConfirmUninstall)]
  }

  /** The commands of an installed game (source lines 77-95); `offline` is the session's offline flag. */
  function InstalledCommands(g: LegendaryGame, offline: bool): (r: seq<Command>)
    ensures |r| == 6 || |r| == 7
    ensures |r| == 7 <==> g.updateAvailable && !offline
    ensures |r| == 7 ==> r[0] == Do("Update", StartInstall)
    ensures forall i :: 0 <= i < 6 ==> r[|r| - 6 + i] == InstalledTail(g)[i]
  {
    (if g.updateAvailable && !offline then [Do("Update", StartInstall)] else []) + InstalledTail(g)
  }

  /**
   * The controls of a live download (source lines 98-110): nothing for a move,
   * otherwise Pause or Continue by the active flag, then Stop.
   */
  function DownloadControls(h: DownloadHandle): (r: seq<Command>)
    ensures h.kind == Move <==> r == []
    ensures h.kind != Move ==> |r| == 2 && r[1] == Do("Stop", StopDownload)
    ensures h.kind != Move ==> r[0] == if h.active then Do("Pause", PauseDownload) else Do("Continue", ContinueDownload)
  {
    if h.kind == Move then []
    else [if h.active then Do("Pause", PauseDownload) else Do("Continue", ContinueDownload), Do("Stop", StopDownload)]
  }

  /**
   * `GetGameCommands` fails exactly where the source throws: on a game of
   * another source, and on an installed game with an update while no one is
   * logged in (`auth!.OfflineLogin` on null). The throw comes before the
   * download handle is looked at.
   */
  predicate CommandsFault(game: GameRef, auth: Option<Auth>)
  {
    game.OtherSourceGame? || (game.game.installed && game.game.updateAvailable && auth.None?)
  }

  /** `GetGameCommands`: the ordered commands for one game. */
  function GameCommands(game: GameRef, auth: Option<Auth>): (r: Result<seq<Command>, Fault>)
    ensures r.Failure? <==> CommandsFault(game, auth)
    ensures r.Failure? ==> r.error == if game.OtherSourceGame? then InvalidData else NullReference
    // a live handle replaces everything else
    ensures r.Success? && game.game.download.Some? ==> r.value == DownloadControls(game.game.download.value)
    ensures r.Success? && game.game.download.None? && !game.game.installed ==> r.value == NotInstalledCommands(game.game)
    ensures r.Success? && game.game.download.None? && game.game.installed ==>
              r.value == InstalledCommands(game.game, auth.Some? && auth.value.offlineLogin)
  {
    match game
    case OtherSourceGame => Failure(InvalidData)
    case Epic(g) =>
      if g.installed && g.updateAvailable && auth.None? then Failure(NullReference)
      else
        var commands :=
          if !g.installed then NotInstalledCommands(g)
          else InstalledCommands(g, g.updateAvailable && auth.value.offlineLogin);
        if g.download.Some? then Success(DownloadControls(g.download.value)) else Success(commands)
  }

  /** The label of a downloading game's first control, by its handle. */
  lemma DownloadOverridesSurface(game: GameRef, auth: Option<Auth>)
    requires game.Epic? && game.game.download.Some? && !CommandsFault(game, auth)
    ensures var h := game.game.download.value;
            var r := GameCommands(game, auth);
            r.Success?
            && (h.kind == Move ==> r.value == [])
            && (h.kind != Move ==> Labels(r.value) == [if h.active then "Pause" else "Continue", "Stop"])
  {
  }

  /**
   * "Get game install size" is offered exactly for a game that is not
   * installed, not from Origin, of unknown size and not downloading, and then
   * as the last command.
   */
  lemma FetchSizeOfferedIff(game: GameRef, auth: Option<Auth>)
    requires game.Epic? && !CommandsFault(game, auth)
    ensures var g := game.game;
            var r := GameCommands(game, auth).value;
            && (HasLabel(r, "Get game install size") <==> !g.installed && g.size == 0 && !g.fromOrigin && g.download.None?)
            && (HasLabel(r, "Get game install size") ==> r[|r| - 1].name == "Get game install size")
  {
    var g := game.game;
    var r := GameCommands(game, auth).value;
    var fetch := "Get game install size";
    if g.download.Some? {
      assert forall i :: 0 <= i < |r| ==> |r[i].name| < |fetch|;
    } else if g.installed {
      InstalledLabelsShort(g, auth.Some? && auth.value.offlineLogin);
    } else {
      assert r == NotInstalledCommands(g);
      assert forall i :: 0 <= i < 3 ==> |r[i].name| < |fetch|;
      if |r| == 4 {
        assert r[3].name == fetch;
      }
    }
  }

  /** Every label of an installed game is shorter than "Get game install size". */
  lemma InstalledLabelsShort(g: LegendaryGame, offline: bool)
    ensures var r := InstalledCommands(g, offline);
            forall i :: 0 <= i < |r| ==> |r[i].name| < |"Get game install size"|
  {
    var r := InstalledCommands(g, offline);
    var tail := InstalledTail(g);
    forall i | 0 <= i < |r| ensures |r[i].name| < |"Get game install size"| {
      if i < |r| - 6 {
        assert r[i] == Do("Update", StartInstall);
      } else {
        var j := i - (|r| - 6);
        assert r[|r| - 6 + j] == tail[j];
      }
    }
  }

  /**
   * An installed game with no download offers "Update" exactly when an update
   * is available and the session is online, and then first; "Launch" or
   * "Running" follows, then the five fixed commands.
   */
  lemma InstalledSurface(game: GameRef, auth: Option<Auth>)
    requires game.Epic? && game.game.installed && game.game.download.None? && !CommandsFault(game, auth)
    ensures var g := game.game;
            var r := GameCommands(game, auth).value;
            && (HasLabel(r, "Update") <==> g.updateAvailable && !auth.value.offlineLogin)
            && (HasLabel(r, "Update") ==> r[0].name == "Update")
            && Labels(r[|r| - 6..]) == [if g.isRunning then "Running" else "Launch",
                                        "Config/Info", "View in browser", "Verify", "Move", "Uninstall"]
  {
    var offline := auth.Some? && auth.value.offlineLogin;
    assert GameCommands(game, auth).value == InstalledCommands(game.game, offline);
    InstalledCommandsLabels(game.game, offline);
  }

  /** The labels of `InstalledCommands`: the optional "Update", then the fixed six. */
  lemma InstalledCommandsLabels(g: LegendaryGame, offline: bool)
    ensures var r := InstalledCommands(g, offline);
            && (HasLabel(r, "Update") <==> g.updateAvailable && !offline)
            && (HasLabel(r, "Update") ==> r[0].name == "Update")
            && Labels(r[|r| - 6..]) == [if g.isRunning then "Running" else "Launch",
                                        "Config/Info", "View in browser", "Verify", "Move", "Uninstall"]
  {
    var r := InstalledCommands(g, offline);
    var tail := InstalledTail(g);
    InstalledTailLabels(g);
    forall i | |r| - 6 <= i < |r| ensures r[i] == tail[i - (|r| - 6)] {
      var j := i - (|r| - 6);
      assert r[|r| - 6 + j] == tail[j];
    }
    assert r[|r| - 6..] == tail;
    if |r| == 7 {
      assert r[0].name == "Update";
    } else {
      assert r == tail;
    }
  }

  /** The fixed labels of an installed game; none of them is "Update". */
  lemma InstalledTailLabels(g: LegendaryGame)
    ensures Labels(InstalledTail(g)) == [if g.isRunning then "Running" else "Launch",
                                         "Config/Info", "View in browser", "Verify", "Move", "Uninstall"]
    ensures !HasLabel(InstalledTail(g), "Update")
  {
    var tail := InstalledTail(g);
    forall i | 0 <= i < 6 ensures tail[i].name[0] != 'U' || |tail[i].name| != 6 {
    }
  }

  /** A game that is not installed and not downloading starts with its three fixed commands. */
  lemma NotInstalledSurface(game: GameRef, auth: Option<Auth>)
    requires game.Epic? && !game.game.installed && game.game.download.None?
    ensures var r := GameCommands(game, auth);
            r.Success? && |r.value| >= 3
            && Labels(r.value[..3]) == [if game.game.fromOrigin then "Play on Origin" else "Install",
                                        "Show in browser", "Import"]
  {
  }

  /**
   * Learning the size of an unsized game removes "Get game install size" and
   * changes nothing else about its surface.
   */
  lemma SizeKnownDropsFetch(g: LegendaryGame, auth: Option<Auth>, size: int)
    requires !g.installed && !g.fromOrigin && g.size == 0 && g.download.None? && size != 0
    ensures var before := GameCommands(Epic(g), auth).value;
            var after := GameCommands(Epic(g.(size := size)), auth).value;
            before == after + [Do("Get game install size", FetchInstallSize)]
  {
  }

  /** The account lines between the first two separators of the global list. */
  function SessionLines(auth: Option<Auth>, manager: Option<Manager>): seq<Command>
  {
    if auth.None? then [Info("Not logged in")]
    else
      [Info("Logged in as " + auth.value.accountName)]
      + (if auth.value.offlineLogin then [Info("Started in offline mode")] else [])
      + [Info("Loaded " + NatToString(if manager.Some? then manager.value.lastGameCount else 0) + " games")]
  }

  /** A label occurs in a concatenation exactly when it occurs in one of the parts. */
  lemma HasLabelConcat(a: seq<Command>, b: seq<Command>, name: string)
    ensures HasLabel(a + b, name) <==> HasLabel(a, name) || HasLabel(b, name)
  {
    if HasLabel(a + b, name) {
      var i :| 0 <= i < |a + b| && (a + b)[i].name == name;
      if i >= |a| { assert b[i - |a|] == (a + b)[i]; }
    }
    if HasLabel(a, name) {
      var i :| 0 <= i < |a| && a[i].name == name;
      assert (a + b)[i] == a[i];
    }
    if HasLabel(b, name) {
      var j :| 0 <= j < |b| && b[j].name == name;
      assert (a + b)[|a| + j] == b[j];
    }
  }

  /**
   * The account lines never read "Login", "Logout", "EOS Overlay" or
   * "Open legendary integration config", whatever the account is called.
   */
  lemma SessionLinesLabels(auth: Option<Auth>, manager: Option<Manager>)
    ensures var lines := SessionLines(auth, manager);
            && !HasLabel(lines, "Login") && !HasLabel(lines, "Logout")
            && !HasLabel(lines, "EOS Overlay") && !HasLabel(lines, "Open legendary integration config")
            && (HasLabel(lines, "Not logged in") <==> auth.None?)
            && (HasLabel(lines, "Started in offline mode") <==> auth.Some? && auth.value.offlineLogin)
  {
    var lines := SessionLines(auth, manager);
    if auth.None? {
      assert lines[0].name == "Not logged in";
    } else {
      var account := "Logged in as " + auth.value.accountName;
      var count := "Loaded " + NatToString(if manager.Some? then manager.value.lastGameCount else 0) + " games";
      assert account[0] == 'L' && account[3] == 'g' && account[4] == 'e' && |account| >= 13;
      assert count[0] == 'L' && count[2] == 'a' && |count| >= 13;
      forall i | 0 <= i < |lines|
        ensures lines[i].name == account || lines[i].name == count || lines[i].name == "Started in offline mode"
      {
      }
      if auth.value.offlineLogin {
        assert lines[1].name == "Started in offline mode";
      }
    }
  }

  /**
   * `GetGlobalCommands`; `integrationConfigExists` stands for the
   * `File.Exists` test on `legendary.json` in the launcher's config folder.
   */
  function GlobalCommands(auth: Option<Auth>, manager: Option<Manager>, integrationConfigExists: bool): (r: seq<Command>)
    ensures |r| >= 2 && r[0] == Do("Open Wiki", OpenUrl(WikiUrl)) && r[1] == Separator()
    ensures auth.Some? ==> r[|r| - 1] == Do("EOS Overlay", OpenEosOverlay)
    ensures auth.None? ==> r[|r| - 1] == Do("Open legendary config", OpenFolder(LegendaryConfigIni))
  {
    GlobalHead(auth, manager) + GlobalTail(auth, integrationConfigExists)
  }

  /** The wiki link and the account lines. */
  function GlobalHead(auth: Option<Auth>, manager: Option<Manager>): seq<Command>
  {
    [Do("Open Wiki", OpenUrl(WikiUrl)), Separator()] + SessionLines(auth, manager)
  }

  /** Everything after the account lines. */
  function GlobalTail(auth: Option<Auth>, integrationConfigExists: bool): seq<Command>
  {
    [Separator(),
     if auth.None? then Do("Login", ShowLoginForm) else Do("Logout", LogoutSession),
     Separator(),
     Do("Open free games page", OpenUrl(FreeGamesUrl)),
     Do("Reload games", ReloadGames),
     Separator(),
     Do("Open legendary config dir", OpenFolder(LegendaryConfigDir))]
    + (if integrationConfigExists then [Do("Open legendary integration config", OpenFolder(IntegrationConfigFile))] else [])
    + [Do("Open legendary config", OpenFolder(LegendaryConfigIni))]
    + (if auth.Some? then [Separator(), Do("EOS Overlay", OpenEosOverlay)] else [])
  }

  /** What the part after the account lines offers. */
  lemma GlobalTailLabels(auth: Option<Auth>, integrationConfigExists: bool)
    ensures var tail := GlobalTail(auth, integrationConfigExists);
            && (HasLabel(tail, "Login") <==> auth.None?)
            && (HasLabel(tail, "Logout") <==> auth.Some?)
            && (HasLabel(tail, "EOS Overlay") <==> auth.Some?)
            && (HasLabel(tail, "Open legendary integration config") <==> integrationConfigExists)
            && !HasLabel(tail, "Not logged in") && !HasLabel(tail, "Started in offline mode")
  {
    var tail := GlobalTail(auth, integrationConfigExists);
    assert tail[1].name == if auth.None? then "Login" else "Logout";
    if integrationConfigExists {
      assert tail[7].name == "Open legendary integration config";
    }
    if auth.Some? {
      assert tail[|tail| - 1].name == "EOS Overlay";
    }
  }

  /**
   * Which global commands the session gates: "Login" and "Not logged in"
   * without a session, "Logout" and "EOS Overlay" with one, "Started in
   * offline mode" with an offline one; the integration config entry follows
   * the settings file alone.
   */
  lemma GlobalCommandsGating(auth: Option<Auth>, manager: Option<Manager>, integrationConfigExists: bool)
    ensures var r := GlobalCommands(auth, manager, integrationConfigExists);
            && (HasLabel(r, "Login") <==> auth.None?)
            && (HasLabel(r, "Not logged in") <==> auth.None?)
            && (HasLabel(r, "Logout") <==> auth.Some?)
            && (HasLabel(r, "EOS Overlay") <==> auth.Some?)
            && (HasLabel(r, "Started in offline mode") <==> auth.Some? && auth.value.offlineLogin)
            && (HasLabel(r, "Open legendary integration config") <==> integrationConfigExists)
  {
    var head := GlobalHead(auth, manager);
    var tail := GlobalTail(auth, integrationConfigExists);
    var lines := SessionLines(auth, manager);
    var wiki: seq<Command> := [Do("Open Wiki", OpenUrl(WikiUrl)), Separator()];
    SessionLinesLabels(auth, manager);
    GlobalTailLabels(auth, integrationConfigExists);
    assert !HasLabel(wiki, "Login") && !HasLabel(wiki, "Not logged in") && !HasLabel(wiki, "Logout");
    assert !HasLabel(wiki, "EOS Overlay") && !HasLabel(wiki, "Started in offline mode");
    assert !HasLabel(wiki, "Open legendary integration config");
    HasLabelConcat(wiki, lines, "Login");
    HasLabelConcat(head, tail, "Login");
    HasLabelConcat(wiki, lines, "Not logged in");
    HasLabelConcat(head, tail, "Not logged in");
    HasLabelConcat(wiki, lines, "Logout");
    HasLabelConcat(head, tail, "Logout");
    HasLabelConcat(wiki, lines, "EOS Overlay");
    HasLabelConcat(head, tail, "EOS Overlay");
    HasLabelConcat(wiki, lines, "Started in offline mode");
    HasLabelConcat(head, tail, "Started in offline mode");
    HasLabelConcat(wiki, lines, "Open legendary integration config");
    HasLabelConcat(head, tail, "Open legendary integration config");
  }

  /** The one launch failure the user may override. */
  const UpdateAvailableMessage := "Game has an update available"
  /** The message `Launch` raises itself when legendary hands back no launch parameters. */
  const ExitedUnexpectedlyMessage := "Legendary exited unexpectedly"

  /** What `game.Launch(ignoreUpdate)` came back with; `P` stands for `LaunchParams`. */
  datatype LaunchAttempt<P> = Launched(parameters: P) | ReturnedNull | Threw(message: string)

  /** What a button of the failure form does. */
  datatype ButtonAction = HideForm | LaunchAnywayThenHide

  datatype Button = Button(name: string, action: ButtonAction)

  /** `Launch`'s effect: hand the parameters to the launcher, or show the failure form. */
  datatype LaunchReport<P> = StartedWith(parameters: P) | FailureForm(text: string, buttons: seq<Button>)

  /**
   * The buttons of the failure form: "Back" always, then "Launch anyway"
   * (which relaunches with `ignoreUpdate` set) only for the update message.
   */
  function RecoveryButtons(message: string): (r: seq<Button>)
    ensures 1 <= |r| <= 2 && r[0] == Button("Back", HideForm)
    ensures |r| == 2 <==> message == UpdateAvailableMessage
    ensures |r| == 2 ==> r[1] == Button("Launch anyway", LaunchAnywayThenHide)
  {
    [Button("Back", HideForm)]
    + if message == UpdateAvailableMessage then [Button("Launch anyway", LaunchAnywayThenHide)] else []
  }

  /** The exception `Launch` ends up catching, if any. */
  function LaunchFailure<P>(attempt: LaunchAttempt<P>): Option<string>
  {
    match attempt
    case Launched(_) => None
    case ReturnedNull => Some(ExitedUnexpectedlyMessage)
    case Threw(message) => Some(message)
  }

  /** `Launch`: start the game, or report the failure with its recovery buttons. */
  function LaunchOutcome<P>(attempt: LaunchAttempt<P>): (r: LaunchReport<P>)
    ensures attempt.Launched? <==> r.StartedWith?
    ensures attempt.Launched? ==> r.parameters == attempt.parameters
    ensures r.FailureForm? ==> r.text == "Game failed to launch: " + LaunchFailure(attempt).value
    ensures r.FailureForm? ==> r.buttons == RecoveryButtons(LaunchFailure(attempt).value)
  {
    match attempt
    case Launched(p) => StartedWith(p)
    case _ =>
      var message := LaunchFailure(attempt).value;
      FailureForm("Game failed to launch: " + message, RecoveryButtons(message))
  }

  /**
   * "Launch anyway" is offered exactly when the launch threw the update
   * message; legendary handing back nothing offers "Back" alone.
   */
  lemma LaunchAnywayOnlyForUpdate<P>(attempt: LaunchAttempt<P>)
    ensures var r := LaunchOutcome(attempt);
            && (r.FailureForm? && |r.buttons| == 2 <==> attempt == Threw(UpdateAvailableMessage))
            && (attempt.ReturnedNull? ==> r.FailureForm? && r.buttons == [Button("Back", HideForm)])
  {
  }
}
