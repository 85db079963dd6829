# Alfae: Epic Games source commands and the launcher's main view, in Dafny

This project models two parts of the Alfae game launcher.

1. **The Epic Games source, `LegendaryGameSource`.** This is the plugin that drives the `legendary` command-line client. The model covers:
   - the ordered per-game command list (`GetGameCommands`), derived from the game's install state, its Origin flag, its size, its update flag, whether it is running, its download handle and the login session;
   - the source-wide command list (`GetGlobalCommands`);
   - the gate that sends Fortnite and Ginger through an optional-content form, the seeding of that form's toggles from the title's tag catalog, and the resolution of the toggles into install tags (`Download`, `DownloadSDL`);
   - the recovery buttons offered when a launch fails (`Launch`);
   - how `Initialize`, `GetGames`, `Login` and `Logout` set and clear the `auth` and `manager` fields.
2. **The launcher's main view, `MainView`.** The model covers:
   - the selection state machine (`SetNewSelection`, `MonitorListBox`) over the two list boxes;
   - the search filter (`ApplySearch`);
   - the guard that drops a background image arriving for a game that is no longer selected (`SetBgImage`);
   - the game count line (`GameCountText`);
   - the order of the sidebar boxes (`GenerateNewMenuItems`).

Files:
- `wrappers.dfy`: `Option` and `Result`.
- `text.dfy`: `IsNullOrWhiteSpace`, case-insensitive `Contains`, decimal rendering of counts.
- `commands.dfy`: the plugin `Command` record. Actions are kept as tags, not delegates.
- `legendary_model.dfy`: the game, download-handle and session data.
- `legendary_commands.dfy`: the per-game and global command lists, and launch recovery.
- `legendary_download.dfy`: the optional-content gate and the tag resolution.
- `legendary_session.dfy`: a class with the `auth` and `manager` fields.
- `views.dfy`: the `GameView` tile and `MainView` classes, and the pure helpers they use.

Pure command builders are functions over `seq<Command>`. Code that loops becomes a method with a loop:
- the toggle seeding becomes `SeedToggles`;
- the tag accumulation becomes `DownloadSDL`;
- the `ForEach` over the tiles becomes `ApplySearch`.

Code that updates fields becomes class methods with `modifies` clauses.

Behaviour worth knowing:
- `GetGameCommands` fails exactly where the C# throws. The downcast `as LegendaryGame` yields null for a game of another source, giving `InvalidDataException`. `auth!.OfflineLogin` is read for an installed game with an update while `auth` is null, giving a null dereference. That dereference happens before the download handle is consulted, so it fails even for a downloading game.
- Form toggle values are looked up by the entry's display name, not its key (`form.GetValue(x.Value.Name)`). The model follows this.
- The model assumes that a toggle reads back as "1" when on. The `Form` class is not part of this model.
- "Launch anyway" is offered only when the exception message is exactly "Game has an update available".
- The always-installed catalog entry is recognised by the key `__required` alone; catalog entries carry no required flag.
- `SetNewSelection` writes to both list boxes, and each write fires `SelectionChanged` again, which calls `MonitorListBox`. `MonitorListBox`'s contract shows that these echoes change nothing.

## Model

| member | source | states |
|---|---|---|
| Text.AllWhiteSpace | Launcher/Views/MainView.axaml.cs:52 | the blank-search test holds exactly when every character is Unicode white space (so also for "") |
| Text.ContainsIgnoreCase | Launcher/Views/MainView.axaml.cs:57-59 | true exactly when some position of the string holds the search text, letter case ignored |
| Text.NatToStringRoundTrip | Launcher/Views/MainView.axaml.cs:32 | the decimal rendering of a count reads back as that count |
| LegendaryCommands.NotInstalledCommands | LegendaryIntegration/LegendaryGameSource.cs:61-74 | "Play on Origin" (Origin games) or "Install", then "Show in browser", "Import", and a fourth "Get game install size" exactly when the size is 0 and the game is not from Origin |
| LegendaryCommands.InstalledCommands | LegendaryIntegration/LegendaryGameSource.cs:77-95 | "Update" first exactly when an update is available and the login is online; then Running/Launch, Config/Info, View in browser, Verify, Move, Uninstall |
| LegendaryCommands.DownloadControls | LegendaryIntegration/LegendaryGameSource.cs:98-110 | no controls for a move; otherwise Pause (active) or Continue (paused), then Stop |
| LegendaryCommands.GameCommands | LegendaryIntegration/LegendaryGameSource.cs:53-113 | fails with InvalidData for a foreign game and with NullReference for an installed game with an update while logged out; a download handle replaces every other command; otherwise the installed or not-installed list |
| LegendaryCommands.DownloadOverridesSurface | LegendaryIntegration/LegendaryGameSource.cs:98-110 | with a download handle the labels are exactly [] for a move, otherwise [Pause or Continue, Stop] |
| LegendaryCommands.FetchSizeOfferedIff | LegendaryIntegration/LegendaryGameSource.cs:72-73 | "Get game install size" appears exactly for a not-installed, non-Origin, size-0 game with no download, and then last |
| LegendaryCommands.InstalledSurface | LegendaryIntegration/LegendaryGameSource.cs:77-95 | an installed game without download has "Update" exactly when updatable and online, and then first; the last six labels are fixed |
| LegendaryCommands.InstalledCommandsLabels | LegendaryIntegration/LegendaryGameSource.cs:77-95 | the installed list holds "Update" exactly when updatable and online, and then first, and ends with the six fixed labels |
| LegendaryCommands.NotInstalledSurface | LegendaryIntegration/LegendaryGameSource.cs:61-70 | a not-installed game without download starts with Play on Origin/Install, Show in browser, Import |
| LegendaryCommands.SizeKnownDropsFetch | LegendaryIntegration/LegendaryGameSource.cs:72-73 | once an unsized game's size is known, its list loses exactly the trailing "Get game install size" |
| LegendaryCommands.GlobalCommands | LegendaryIntegration/LegendaryGameSource.cs:121-165 | the list opens with the wiki link and a separator, and ends with "EOS Overlay" when logged in, otherwise with "Open legendary config" |
| LegendaryCommands.SessionLinesLabels | LegendaryIntegration/LegendaryGameSource.cs:129-137 | the account lines show "Not logged in" exactly when logged out and "Started in offline mode" exactly for an offline login, and never read like a gated command |
| LegendaryCommands.GlobalCommandsGating | LegendaryIntegration/LegendaryGameSource.cs:129-162 | Login and "Not logged in" appear exactly when logged out; Logout and EOS Overlay exactly when logged in; the offline line exactly for an offline login; the integration config entry exactly when its file exists |
| LegendaryCommands.RecoveryButtons | LegendaryIntegration/LegendaryGameSource.cs:189-199 | "Back" always, then "Launch anyway" exactly when the message is "Game has an update available" |
| LegendaryCommands.LaunchOutcome | LegendaryIntegration/LegendaryGameSource.cs:176-208 | launch parameters are handed on unchanged; a null result fails with "Legendary exited unexpectedly"; a failure shows "Game failed to launch: " and the message, with the recovery buttons for that message |
| LegendaryCommands.LaunchAnywayOnlyForUpdate | LegendaryIntegration/LegendaryGameSource.cs:180-199 | a second button appears exactly for the update exception; a null launch result offers only Back |
| LegendaryDownload.OptionalContentTitles | LegendaryIntegration/LegendaryGameSource.cs:227-235 | the optional-content path is taken exactly for "Fortnite" or "Ginger" when not installed |
| LegendaryDownload.SeedToggles | LegendaryIntegration/LegendaryGameSource.cs:246-249 | one toggle per catalog entry, in order, labelled with the entry name, on and locked exactly for the key "__required" |
| LegendaryDownload.Download | LegendaryIntegration/LegendaryGameSource.cs:233-262 | the form is shown exactly on the optional-content path, with the title's catalog URL, "<name> Optional Content" and seeded toggles; otherwise the download starts with no tags |
| LegendaryDownload.DownloadSDL | LegendaryIntegration/LegendaryGameSource.cs:264-279 | the install tags are the tags of every entry whose toggle reads "1", in catalog order, duplicates kept |
| LegendaryDownload.ChosenTagsAppend | LegendaryIntegration/LegendaryGameSource.cs:268-275 | resolving a catalog split in two gives the two resolutions concatenated (order is catalog order) |
| LegendaryDownload.ChosenTagsMembership | LegendaryIntegration/LegendaryGameSource.cs:268-275 | a tag is resolved exactly when some chosen entry lists it |
| LegendaryDownload.RequiredContentInstalled | LegendaryIntegration/LegendaryGameSource.cs:246-275 | with seeded toggles whose locked ones keep their value, every tag of the "__required" entry is installed |
| LegendaryDownload.ResolutionExample | LegendaryIntegration/LegendaryGameSource.cs:266-275 | baseline ["a"] plus option ["b"] resolves to ["a"] with the option off and ["a","b"] with it on |
| LegendarySession.LegendarySource.Initialize | LegendaryIntegration/LegendaryGameSource.cs:28-39 | `auth` is the resumed login, or null when resuming failed |
| LegendarySession.LegendarySource.GetGames | LegendaryIntegration/LegendaryGameSource.cs:43-51 | logged out: no games and no manager created; logged in: a manager is created only if missing, and its games are returned |
| LegendarySession.LegendarySource.Login | LegendaryIntegration/LegendaryGameSource.cs:286-315 | the auth code picks the route; an exception or a failed login leaves `auth` null and re-shows the form with the message or "Login failed"; success stores the session; `manager` untouched |
| LegendarySession.LegendarySource.Logout | LegendaryIntegration/LegendaryGameSource.cs:319-336 | no effect when logged out; otherwise downloads are stopped if a manager exists and both `auth` and `manager` end null |
| LegendarySession.LogoutTwice | LegendaryIntegration/LegendaryGameSource.cs:319-322 | a second logout finds no session and changes nothing |
| Views.GameCountText | Launcher/Views/MainView.axaml.cs:32 | empty exactly when the games are not loaded |
| Views.GameCountTextInjective | Launcher/Views/MainView.axaml.cs:32 | "Found N games, M installed" determines N and M |
| Views.SearchIgnoresCase | Launcher/Views/MainView.axaml.cs:56-59 | upper-casing the search text never changes which tiles are shown |
| Views.NameContainingSearchShown | Launcher/Views/MainView.axaml.cs:56-59 | a tile whose game name contains the search text is shown |
| Views.MenuBoxes | Launcher/Views/MainView.axaml.cs:141-156 | one box per game source, in source order, titled "<service> - <version>" with that source's commands, then a final "Alfae <version>" box with the count line, the two folders and the boot profiles |
| Views.MainView.GenerateNewMenuItems | Launcher/Views/MainView.axaml.cs:139-157 | the sidebar is replaced by exactly those boxes, with the current count line |
| Views.MainView.SetNewSelection | Launcher/Views/MainView.axaml.cs:66-92 | re-selecting the current tile changes nothing; otherwise the old tile is deselected, the new one selected and held by the box for its install status while the other box holds nothing, and the background is cleared |
| Views.MainView.MonitorListBox | Launcher/Views/MainView.axaml.cs:95-102 | when the box holds no game tile, or echoes the current selection, neither the view nor the selected tile changes; otherwise that tile becomes the selection, selected and shown, and the old one is deselected; no tile's visibility changes |
| Views.MainView.BackgroundArrived | Launcher/Views/MainView.axaml.cs:104-114 | an arriving image is shown only if its game is still the selection; otherwise the background is left alone |
| Views.LateImageForFormerSelection | Launcher/Views/MainView.axaml.cs:104-113 | after moving from one game to another, the first game's late image leaves the background cleared |
| Views.MainView.ApplySearch | Launcher/Views/MainView.axaml.cs:50-64 | every tile's visibility equals the search filter (all shown for null or blank text); no tile's selection changes and the tile list is untouched |

## Left out

- Text.ContainsIgnoreCase: case folding covers the ASCII letters only. `StringComparison.OrdinalIgnoreCase` also folds non-ASCII letters with the invariant upper-case mapping; Unicode case tables are outside this model.
- The "tic-tac-toe" easter egg in `ApplySearch`: it is UI only.
- `UpdateCoverImage` and the image fetch and Bitmap decoding of `SetBgImage`: only the identity guard is kept, and a game without a background image arrives as `None`.
- `UpdateDriveStats`: it does drive I/O and a floating-point percentage.
- `OnDownloadLocationButton`, `OnHidePluginSideBar`, the `DlText` and `HidePluginSideBarLabel` bindings, `BootProfileItems` and the unused `GenerateMenuItems`: these are dialog and binding glue.
- The middleware's `GetGlobalCommands`, the launcher's boot profile commands and its version string: they enter `MenuBoxes` as inputs.
- The `LegendaryDownload` handle's `Pause`/`Start`/`Stop`, its `OnCompletionOrCancel` event, and the install/update/move/repair lifecycle: the handle class is not part of this model, so a handle is only its kind and active flag.
- `ReloadGames`, `Uninstall`, `Repair`, `GetOfflineGameSize`, `GetBootProfiles` and the `Log` call: their effects are external calls to `legendary` and the launcher. Commands refer to them by action tag only.
- `UrlGet` and the JSON decoding of the tag catalog: the catalog arrives already decoded, as an ordered list of (key, name, tags).
- `Authenticate`, `AuthenticateUsingWebview` and `AttemptLogin`: their outcomes are parameters of `Login` and `Initialize`.
- LegendarySession.LegendarySource.Logout: `LegendaryAuth.Logout` and `StopAllDownloads` are assumed to complete; if either threw, the C# would leave `auth` and `manager` set, and the model does not capture that path.
- `LegendaryGameManager`'s own behaviour: its game listing is an input to `GetGames`, and `StopAllDownloads` is reported only as a flag. `LastGameCount` is never updated by this model, because that happens inside the manager.
- LegendarySession.LegendarySource.Login: it does not show the unauthenticated `LegendaryAuth` that is visible while the authentication call is awaited; `async` interleavings are out of scope.
- LegendaryCommands.LaunchOutcome: an exception thrown by `App.Launch` itself goes to the same catch block. The model covers only failures of `game.Launch`.
- The form rendering (`ShowForm`, `ShowTextPrompt`, `HideForm`, `LoginForm`, `ImportFileSelect`, `MoveFolderSelect`): it is UI side effect only.
- The `File.Exists` check on `legendary.json`: it is an input to `GlobalCommands`.
- The plugin's constant descriptors (`ServiceName`, `Version`, `SlugServiceName`, `ShortServiceName`): the search sees a source's short name as a field of the tile.
