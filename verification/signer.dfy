/**
 The request signer: the `intercept` hook every outbound call goes through.
 The interceptor actions run first; the bearer token, a fixed client
 identity and a per-request correlation identifier are appended last.
 */
module Signer {
  import opened Optional
  import opened Sessions
  import opened Requests
  import opened Interceptors

  const AUTHORIZATION := "Authorization"
  const USER_AGENT := "User-Agent"
  const CORRELATION_ID := "X-Epic-Correlation-ID"
  /** The client identity every signed request claims. */
  const CLIENT_IDENTITY := "Fortnite/++Fortnite+Release-11.40-CL-11039906 {0}"

  /** The three headers a signed request gets, in the order they are appended. */
  function SigningHeaders(s: Session, correlationId: string): seq<Header>
  {
    [ Header(AUTHORIZATION, "bearer " + s.accessToken),
      Header(USER_AGENT, CLIENT_IDENTITY),
      Header(CORRELATION_ID, correlationId) ]
  }

  /** The request after the action chain, with a null result replaced by the original once, at the end. */
  function Transformed<A>(request: Request, actions: seq<A>, run: Runner<A>): (t: Request)
    ensures RunActions(actions, run, Some(request)) == None ==> t == request
    ensures RunActions(actions, run, Some(request)).Some? ==> t == RunActions(actions, run, Some(request)).value
  {
    RunActions(actions, run, Some(request)).GetOr(request)
  }

  /**
   `intercept`: the request handed on to the rest of the HTTP chain.
   `session` is the stored session (None before the first login);
   `correlationId` stands for the freshly generated random UUID.
   */
  function Intercept<A>(request: Request, actions: seq<A>, run: Runner<A>,
                        session: Option<Session>, correlationId: string): (forwarded: Request)
    // Already authorized, or nothing to sign with: the ORIGINAL request goes on.
    ensures AUTHORIZATION in HeaderNames(Transformed(request, actions, run)) || session == None
      ==> forwarded == request
    // Otherwise: the transformed request, untouched, followed by exactly three new headers.
    ensures AUTHORIZATION !in HeaderNames(Transformed(request, actions, run)) && session.Some? ==>
      var t := Transformed(request, actions, run);
      && forwarded.target == t.target
      && |forwarded.headers| == |t.headers| + 3
      && forwarded.headers[..|t.headers|] == t.headers
      && forwarded.headers[|t.headers|] == Header(AUTHORIZATION, "bearer " + session.value.accessToken)
      && forwarded.headers[|t.headers| + 1] == Header(USER_AGENT, CLIENT_IDENTITY)
      && forwarded.headers[|t.headers| + 2] == Header(CORRELATION_ID, correlationId)
  {
    var t := Transformed(request, actions, run);
    if AUTHORIZATION in HeaderNames(t) || session.None? then request
    else WithHeaders(t, SigningHeaders(session.value, correlationId))
  }

  /**
   The signer never duplicates an Authorization header: either the original
   request goes on as it came, or the result carries exactly one, the bearer
   header for the stored session.
   */
  lemma InterceptAuthorizesOnce<A>(request: Request, actions: seq<A>, run: Runner<A>,
                                   session: Option<Session>, correlationId: string)
    ensures var forwarded := Intercept(request, actions, run, session, correlationId);
      || forwarded == request
      || (session.Some? && CountHeader(forwarded.headers, AUTHORIZATION) == 1)
  {
    var t := Transformed(request, actions, run);
    if AUTHORIZATION !in HeaderNames(t) && session.Some? {
      var extra := SigningHeaders(session.value, correlationId);
      CountHeaderZero(t, AUTHORIZATION);
      CountHeaderAppend(t.headers, extra, AUTHORIZATION);
      assert CountHeader(extra, AUTHORIZATION) == 1 by {
        assert extra[1..][1..][1..] == [];
        assert CountHeader(extra[1..][1..], AUTHORIZATION) == 0;
        assert CountHeader(extra[1..], AUTHORIZATION) == 0;
      }
    }
  }

  /**
   A chain whose final result is null behaves exactly as if no action were
   registered: the original request is what gets checked and signed.
   */
  lemma NullChainFallsBackToOriginal<A>(request: Request, actions: seq<A>, run: Runner<A>,
                                        session: Option<Session>, correlationId: string)
    requires RunActions(actions, run, Some(request)) == None
    ensures Intercept(request, actions, run, session, correlationId)
         == Intercept(request, [], run, session, correlationId)
  {
  }

  /** The actions' result is forwarded, signed, only when there is a session to sign it with. */
  lemma NoSessionForwardsOriginal<A>(request: Request, actions: seq<A>, run: Runner<A>, correlationId: string)
    ensures Intercept(request, actions, run, None, correlationId) == request
  {
  }

  // ---- Finding: an Authorization header added by an interceptor action is dropped ----

  /** The unit handle used by the counterexample below: one action that sets its own credentials. */
  function SetOwnAuthorization(a: (), r: Option<Request>): Option<Request>
  {
    match r
    case Some(q) => Some(WithHeaders(q, [Header(AUTHORIZATION, "basic custom")]))
    case None => None
  }

  /**
   As written, an action that adds its own Authorization header to an
   unsigned request causes the ORIGINAL request to be forwarded: it leaves
   with no Authorization header at all, although a session exists.
   */
  lemma InterceptDropsActionAuthorization(s: Session, correlationId: string)
    ensures var request := Request("GET /account", []);
      var forwarded := Intercept(request, [()], SetOwnAuthorization, Some(s), correlationId);
      && AUTHORIZATION in HeaderNames(Transformed(request, [()], SetOwnAuthorization))
      && AUTHORIZATION !in HeaderNames(forwarded)
  {
    var request := Request("GET /account", []);
    var t := Transformed(request, [()], SetOwnAuthorization);
    assert t.headers == [Header(AUTHORIZATION, "basic custom")];
    assert t.headers[0].name == AUTHORIZATION;
  }

  /**
   The evidently intended signer: when the chain's result already carries an
   Authorization header, or there is no session, that result goes on as it is.
   */
  function InterceptIntended<A>(request: Request, actions: seq<A>, run: Runner<A>,
                                session: Option<Session>, correlationId: string): (forwarded: Request)
    ensures AUTHORIZATION in HeaderNames(forwarded)
      <==> AUTHORIZATION in HeaderNames(Transformed(request, actions, run)) || session.Some?
    ensures AUTHORIZATION in HeaderNames(Transformed(request, actions, run)) || session == None
      ==> forwarded == Transformed(request, actions, run)
  {
    var t := Transformed(request, actions, run);
    if AUTHORIZATION in HeaderNames(t) || session.None? then t
    else
      var forwarded := WithHeaders(t, SigningHeaders(session.value, correlationId));
      assert forwarded.headers[|t.headers|].name == AUTHORIZATION;
      forwarded
  }

  /** Both signers agree on every request whose chain result carries no Authorization header. */
  lemma IntendedAgreesWhenUnauthorized<A>(request: Request, actions: seq<A>, run: Runner<A>,
                                          session: Session, correlationId: string)
    requires AUTHORIZATION !in HeaderNames(Transformed(request, actions, run))
    ensures InterceptIntended(request, actions, run, Some(session), correlationId)
         == Intercept(request, actions, run, Some(session), correlationId)
  {
  }

  /** The unit handle of an action that tags the request with an extra header. */
  function AddTrace(a: (), r: Option<Request>): Option<Request>
  {
    match r
    case Some(q) => Some(WithHeaders(q, [Header("X-Trace", "1")]))
    case None => None
  }

  /**
   The correction also changes the branch without a session: there the
   chain's result goes on, where the code as written forwards the original.
   */
  lemma IntendedDiffersWithoutSession(correlationId: string)
    ensures var request := Request("GET /account", []);
      && Intercept(request, [()], AddTrace, None, correlationId) == request
      && InterceptIntended(request, [()], AddTrace, None, correlationId)
         == Request("GET /account", [Header("X-Trace", "1")])
  {
    var request := Request("GET /account", []);
    assert RunActions([()], AddTrace, Some(request)) == Some(Request("GET /account", [Header("X-Trace", "1")]));
  }
}
