/**
 * The session fields of `LegendaryGameSource`: `auth` (the login, null when
 * logged out) and `manager` (the game manager, created on first use). The
 * authentication calls themselves are external; their outcomes are parameters.
 */
module LegendarySession {
  import opened Wrappers
  import opened LegendaryModel

  /** Which authentication call `Login` makes. */
  datatype AuthRoute = WithAuthCode(code: string) | ViaWebview

  /**
   * What `Login` shows afterwards: the login form again with a warning, or
   * (no warning) a games reload with the prompt hidden.
   */
  datatype LoginOutcome = LoginOutcome(route: AuthRoute, retryWarning: Option<string>)

  /** What `Logout` did: nothing, or logged out (stopping all downloads when a manager existed). */
  datatype LogoutOutcome = NotLoggedIn | LoggedOut(stoppedAllDownloads: bool)

  class LegendarySource {
    var auth: Option<Auth>
    var manager: Option<Manager>

    /**
     * The manager, when there is one, was created for the current session.
     * `GetGames`, `Logout` and a `Login` made while logged out keep this.
     */
    predicate ManagerMatchesSession()
      reads this
    {
      manager.Some? ==> auth == Some(manager.value.session)
    }

    constructor ()
      ensures auth == None && manager == None && ManagerMatchesSession()
    {
      auth := None;
      manager := None;
    }

    /**
     * `Initialize`: try to resume the stored login; `resumed` is what
     * `AttemptLogin` achieved (None when it returned false).
     */
    method Initialize(resumed: Option<Auth>)
      modifies this
      ensures auth == resumed && manager == old(manager)
      ensures old(manager).None? ==> ManagerMatchesSession()
    {
      auth := resumed;
    }

    /**
     * `GetGames`: nothing while logged out; otherwise create the manager if
     * there is none yet and return what it lists (`listed`, an external result).
     */
    method GetGames(listed: seq<LegendaryGame>) returns (games: seq<LegendaryGame>)
      modifies this
      ensures auth == old(auth)
      ensures old(auth).None? ==> games == [] && manager == old(manager)
      ensures old(auth).Some? ==> games == listed
      ensures old(auth).Some? && old(manager).Some? ==> manager == old(manager)
      ensures old(auth).Some? && old(manager).None? ==> manager == Some(Manager(old(auth).value, 0))
      ensures old(ManagerMatchesSession()) ==> ManagerMatchesSession()
    {
      if auth.None? {
        return [];
      }
      if manager.None? {
        manager := Some(Manager(auth.value, 0));
      }
      games := listed;
    }

    /**
     * `Login`: `authCode` picks the authentication route, `authError` is the
     * message of the exception it threw (if any), and `attempt` is what
     * `AttemptLogin` achieved afterwards (None when it returned false).
     */
    method Login(authCode: Option<string>, authError: Option<string>, attempt: Option<Auth>)
      returns (outcome: LoginOutcome)
      modifies this
      ensures manager == old(manager)
      ensures outcome.route == if authCode.Some? then WithAuthCode(authCode.value) else ViaWebview
      ensures authError.Some? ==> auth == None && outcome.retryWarning == authError
      ensures authError.None? && attempt.None? ==> auth == None && outcome.retryWarning == Some("Login failed")
      ensures authError.None? && attempt.Some? ==> auth == attempt && outcome.retryWarning == None
      ensures old(auth).None? && old(ManagerMatchesSession()) ==> ManagerMatchesSession()
    {
      var route := if authCode.Some? then WithAuthCode(authCode.value) else ViaWebview;
      if authError.Some? {
        auth := None;
        return LoginOutcome(route, authError);
      }
      if attempt.None? {
        auth := None;
        return LoginOutcome(route, Some("Login failed"));
      }
      auth := attempt;
      outcome := LoginOutcome(route, None);
    }

    /** `Logout`: a no-op while logged out; otherwise both fields end null. */
    method Logout() returns (outcome: LogoutOutcome)
      modifies this
      ensures old(auth).None? ==> outcome == NotLoggedIn && auth == old(auth) && manager == old(manager)
      ensures old(auth).Some? ==> outcome == LoggedOut(old(manager).Some?) && auth == None && manager == None
      ensures old(ManagerMatchesSession()) ==> ManagerMatchesSession()
    {
      if auth.None? {
        return NotLoggedIn;
      }
      var stopped := manager.Some?;
      auth := None;
      manager := None;
      outcome := LoggedOut(stopped);
    }
  }

  /** Logging out twice is logging out once: the second call finds no session. */
  method LogoutTwice(source: LegendarySource) returns (first: LogoutOutcome, second: LogoutOutcome)
    modifies source
    ensures second == NotLoggedIn
    ensures source.auth == None && source.manager == (if old(source.auth).Some? then None else old(source.manager))
  {
    first := source.Logout();
    second := source.Logout();
  }
}
