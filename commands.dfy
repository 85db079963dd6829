/**
 * The plugin command surface shared by the launcher and its game sources: a
 * command is a label, what invoking it does, and optional nested commands. A
 * separator is a command with an empty name and no action. Actions are
 * modelled by tag, not by the delegates the launcher stores.
 */
module Commands {

  /** Folders and files the "Open ..." commands hand to the file browser. */
  datatype Folder =
    | LegendaryConfigDir      // ~/.config/legendary
    | LegendaryConfigIni      // ~/.config/legendary/config.ini
    | IntegrationConfigFile   // <app config dir>/legendary.json
    | AppConfigDir
    | AppGameDir

  datatype Action =
    | NoAction
    | LaunchGame(ignoreUpdate: bool)
    | StartInstall
    | ShowInBrowser
    | ShowImportDialog
    | FetchInstallSize
    | ShowConfigForm
    | VerifyGame
    | ShowMoveDialog
    | ConfirmUninstall
    | PauseDownload
    | ContinueDownload
    | StopDownload
    | OpenUrl(url: string)
    | OpenFolder(folder: Folder)
    | ShowLoginForm
    | LogoutSession
    | ReloadGames
    | OpenEosOverlay

  datatype Command = Command(name: string, action: Action, subCommands: seq<Command>)

  /** `new Command(name, action)`. */
  function Do(name: string, action: Action): Command
  {
    Command(name, action, [])
  }

  /** `new Command(name)`: a line of text with nothing to invoke. */
  function Info(name: string): Command
  {
    Command(name, NoAction, [])
  }

  /** `new Command()`: a separator. */
  function Separator(): Command
  {
    Command("", NoAction, [])
  }

  /** The labels of a command list, in order. */
  function Labels(commands: seq<Command>): (r: seq<string>)
    ensures |r| == |commands|
    ensures forall i :: 0 <= i < |commands| ==> r[i] == commands[i].name
  {
    seq(|commands|, i requires 0 <= i < |commands| => commands[i].name)
  }
}
