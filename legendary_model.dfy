/**
 * The state the Epic Games source (`LegendaryGameSource`) reads: a game as the
 * legendary backend reports it, its download handle, and the login session.
 */
module LegendaryModel {
  import opened Wrappers

  /** What a download handle is doing (`LegendaryStatusType`). */
  datatype StatusType = Install | Update | Move | Repair

  /**
   * A live `LegendaryDownload`, reduced to what the command surface reads;
   * its Pause/Start/Stop bodies are not part of this model.
   */
  datatype DownloadHandle = DownloadHandle(kind: StatusType, active: bool)

  /** A `LegendaryGame`: the fields the command surface and the download path consult. */
  datatype LegendaryGame = LegendaryGame(
    name: string,
    internalName: string,
    installed: bool,
    fromOrigin: bool,
    size: int,
    updateAvailable: bool,
    isRunning: bool,
    download: Option<DownloadHandle>)

  /**
   * A game handed to the source: the source downcasts with `as LegendaryGame`,
   * which yields null for a game of another source.
   */
  datatype GameRef = Epic(game: LegendaryGame) | OtherSourceGame

  /** A logged-in `LegendaryAuth`: the account name and whether it is an offline login. */
  datatype Auth = Auth(accountName: string, offlineLogin: bool)

  /** A `LegendaryGameManager`: the session it was created with and its last game count. */
  datatype Manager = Manager(session: Auth, lastGameCount: nat)

  /** Exceptions the command generator can raise. */
  datatype Fault =
    | InvalidData     // the game is not a LegendaryGame
    | NullReference   // `auth!` dereferenced while no one is logged in
}
