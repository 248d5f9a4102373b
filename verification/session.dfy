/**
 Sessions held by the facade and the outcomes of the calls the facade makes
 to the authentication server, which the model treats as oracles.
 */
module Sessions {

  /** Seconds since the epoch. */
  type Timestamp = int

  /** A token pair together with the account it belongs to; replaced, never mutated. */
  datatype Session = Session(
    accountId: string,
    accessToken: string,
    accessTokenExpiresAt: Timestamp,
    refreshToken: string,
    refreshTokenExpiresAt: Timestamp)

  /** What the authentication server answered to a token request. */
  datatype AuthResult = Authenticated(session: Session) | AuthFailed

  /** What the server answered to a token revocation: `RevokeFailed` is an I/O failure. */
  datatype Revocation = Revoked | RevokeFailed

  /** What the account lookup at the end of construction answered: `LookupFailed` is an error response. */
  datatype AccountLookup = AccountFound | LookupFailed

  /** The builder options the lifecycle depends on. */
  datatype Config = Config(
    kairos: bool,               // log in through the exchange-code ("kairos") flow
    handleShutdown: bool,       // register a process shutdown hook that closes the facade
    refreshAutomatically: bool, // arm the two rotation timers
    enableXmpp: bool)           // create and connect the chat connection manager

  /**
   The facade's state as the lifecycle sees it: the stored session, whether
   a chat connection manager exists, and whether logins use the kairos flow.
   */
  datatype Facade = Facade(session: Session, hasConnection: bool, kairos: bool)
}
