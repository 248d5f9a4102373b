/**
 The session facade's lifecycle: construction, the two rotation jobs and
 shutdown, each as a function from the facade's state and the answers of the
 authentication server to the new state and the ordered effects performed.
 */
module Lifecycle {
  import opened Sessions
  import opened Effects
  import opened Scheduler

  /**
   The outcome of the constructor: a facade, a failed login, or an error
   after the login, which abandons an object whose timers are already armed.
   */
  datatype Construction =
    | Built(facade: Facade, trace: seq<Effect>)
    | LoginFailed
    | Abandoned(trace: seq<Effect>)
  datatype Step = Step(facade: Facade, trace: seq<Effect>)

  /** The token request a job makes: the refresh job spends the stored session's refresh token. */
  function GrantFor(f: Facade, job: Job): Grant
  {
    match job
    case RefreshJob => RefreshTokenGrant(f.session.refreshToken)
    case ReauthenticateJob => Login(f.kairos)
  }

  function Optionally(cond: bool, effects: seq<Effect>): seq<Effect>
  {
    if cond then effects else []
  }

  /**
   The constructor from the initial login to the account lookup. `login` is
   the server's answer to the login and `lookup` its answer to the account
   lookup; `nowRefresh` and `nowReauth` are the two clock reads of
   `scheduleRefresh`. A failed login makes construction fail before anything
   else happens; a failed lookup makes it fail after everything else.
   */
  function Construct(cfg: Config, login: AuthResult, lookup: AccountLookup,
                     nowRefresh: Timestamp, nowReauth: Timestamp): (c: Construction)
    ensures c.LoginFailed? <==> login.AuthFailed?
    ensures c.Built? <==> login.Authenticated? && lookup == AccountFound
    ensures c.Built? ==> c.facade == Facade(login.session, cfg.enableXmpp, cfg.kairos)
    // whether or not the account lookup succeeds, everything before it has happened
    ensures !c.LoginFailed? ==> c.trace == BootTrace(cfg, login.session, nowRefresh, nowReauth)
  {
    match login
    case AuthFailed => LoginFailed
    case Authenticated(s) =>
      var trace := BootTrace(cfg, s, nowRefresh, nowReauth);
      if lookup == AccountFound then Built(Facade(s, cfg.enableXmpp, cfg.kairos), trace)
      else Abandoned(trace)
  }

  /** What the constructor does once the login has returned `s`, up to the account lookup. */
  function BootTrace(cfg: Config, s: Session, nowRefresh: Timestamp, nowReauth: Timestamp): (trace: seq<Effect>)
    // the session is stored before anything else happens ...
    ensures |trace| >= 2 && trace[..2] == [RequestTokens(Login(cfg.kairos)), StoreSession(s)]
    // ... so the timers are computed from it, and only when automatic refresh is on
    ensures Timers(trace) == (if cfg.refreshAutomatically then ScheduleRefresh(s, nowRefresh, nowReauth) else [])
    ensures RegisterShutdownHook in trace <==> cfg.handleShutdown
    ensures Connect(s.accountId, s.accessToken) in trace <==> cfg.enableXmpp
    ensures trace[|trace| - 1] == FindAccount(s.accountId)
  {
    var stored := [RequestTokens(Login(cfg.kairos)), StoreSession(s)];
    var hook := Optionally(cfg.handleShutdown, [RegisterShutdownHook]);
    var timers := ScheduleRefresh(s, nowRefresh, nowReauth);
    var armed := Optionally(cfg.refreshAutomatically, [Schedule(timers[0]), Schedule(timers[1])]);
    var connect := Optionally(cfg.enableXmpp, [Connect(s.accountId, s.accessToken)]) + [FindAccount(s.accountId)];
    var trace := stored + hook + armed + connect;
    assert Timers(trace) == (if cfg.refreshAutomatically then timers else []) by {
      ConstructTimers(stored, hook, armed, connect, timers, cfg.refreshAutomatically);
    }
    assert RegisterShutdownHook in trace <==> cfg.handleShutdown by {
      assert RegisterShutdownHook !in stored + armed + connect;
    }
    assert Connect(s.accountId, s.accessToken) in trace <==> cfg.enableXmpp by {
      assert Connect(s.accountId, s.accessToken) !in stored + hook + armed;
    }
    assert trace[..2] == stored;
    trace
  }

  /** The timer bookkeeping of `Construct`: only the armed part schedules anything. */
  lemma ConstructTimers(stored: seq<Effect>, hook: seq<Effect>, armed: seq<Effect>, connect: seq<Effect>,
                        timers: seq<Timer>, arm: bool)
    requires |timers| == 2
    requires ArmsNothing(stored) && ArmsNothing(hook) && ArmsNothing(connect)
    requires armed == Optionally(arm, [Schedule(timers[0]), Schedule(timers[1])])
    ensures Timers(stored + hook + armed + connect) == (if arm then timers else [])
  {
    TimersAppend(stored + hook, armed);
    TimersAppend(stored, hook);
    TimersAppend(stored + hook + armed, connect);
    TimersNone(stored);
    TimersNone(hook);
    TimersNone(connect);
    if arm {
      assert armed[1..] == [Schedule(timers[1])];
      assert armed[1..][1..] == [];
      assert Timers(armed) == [timers[0]] + Timers(armed[1..]);
      assert timers == [timers[0], timers[1]];
    }
  }

  /**
   `close`: shutdown listeners, the chat connection, revocation of the stored
   access token, then the HTTP client and the listeners. A failed revocation
   (`RevokeFailed`) ends the sequence right after the revocation attempt.
   */
  function Close(f: Facade, revoke: Revocation): (trace: seq<Effect>)
    ensures |trace| == (if f.hasConnection then 3 else 2) + (if revoke == Revoked then 3 else 0)
    ensures trace[0] == ShutdownEvent
    ensures f.hasConnection ==> trace[1] == CloseConnection
    ensures CloseConnection in trace <==> f.hasConnection
    ensures revoke == RevokeFailed ==> trace[|trace| - 1] == KillToken(f.session.accessToken)
    ensures revoke == Revoked ==>
      && |trace| >= 4
      && trace[|trace| - 4] == KillToken(f.session.accessToken)
      && trace[|trace| - 3] == StopDispatcher
      && trace[|trace| - 2] == EvictConnections
      && trace[|trace| - 1] == DisposeListeners
  {
    var kill := KillToken(f.session.accessToken);
    var head := if f.hasConnection then [ShutdownEvent, CloseConnection, kill] else [ShutdownEvent, kill];
    if revoke == Revoked then head + [StopDispatcher, EvictConnections, DisposeListeners] else head
  }

  /** The six steps `close` may take, for a facade whose stored access token is `token`. */
  predicate ShutdownStep(e: Effect, token: string)
  {
    e in {ShutdownEvent, CloseConnection, KillToken(token), StopDispatcher, EvictConnections, DisposeListeners}
  }

  /**
   What `close` never does: announce the shutdown twice, touch a token other
   than the stored one, reconnect, store a session, or arm a timer; and the
   chat connection, if any, is closed before the token is revoked.
   */
  lemma CloseConfined(f: Facade, revoke: Revocation)
    ensures var trace := Close(f, revoke);
      && (forall e :: e in trace ==> ShutdownStep(e, f.session.accessToken))
      && ArmsNothing(trace)
  {
  }

  /**
   `close` announces the shutdown once, revokes the stored token once, closes
   the chat connection before that revocation, and drops the listeners only
   when the revocation went through.
   */
  lemma CloseOnce(f: Facade, revoke: Revocation)
    ensures var trace := Close(f, revoke);
      && Count(trace, ShutdownEvent) == 1
      && Count(trace, KillToken(f.session.accessToken)) == 1
      && Count(trace, CloseConnection) == (if f.hasConnection then 1 else 0)
      && (f.hasConnection ==> Precedes(trace, CloseConnection, KillToken(f.session.accessToken)))
      && (DisposeListeners in trace <==> revoke == Revoked)
  {
    var trace := Close(f, revoke);
    var kill := KillToken(f.session.accessToken);
    var k := if f.hasConnection then 2 else 1;
    assert trace[k] == kill;
    CountOnce(trace, ShutdownEvent, 0);
    CountOnce(trace, kill, k);
    if f.hasConnection {
      assert trace[1] == CloseConnection;
      CountOnce(trace, CloseConnection, 1);
    } else {
      CountZero(trace, CloseConnection);
    }
  }

  /**
   `refresh` (the refresh job) and `authenticateNew` (the re-authentication
   job). `auth` is the server's answer to the token request, `revokeOld` its
   answer to the revocation of the old access token, and `revokeOnClose` its
   answer to the revocation made by `close` if the rotation fails.
   */
  function Rotate(f: Facade, job: Job, auth: AuthResult, revokeOld: Revocation, revokeOnClose: Revocation): (out: Step)
    ensures |out.trace| >= 1 && out.trace[0] == RequestTokens(GrantFor(f, job))
    ensures out.facade.hasConnection == f.hasConnection && out.facade.kairos == f.kairos
    ensures ArmsNothing(out.trace)
    // the server refused: nothing is stored and the facade shuts down
    ensures auth == AuthFailed ==> out.facade == f && out.trace == [out.trace[0]] + Close(f, revokeOnClose)
    // the new session is stored first, then the OLD access token is revoked
    ensures auth.Authenticated? ==>
      && out.facade.session == auth.session
      && out.trace == [out.trace[0], StoreSession(auth.session), KillToken(f.session.accessToken)]
                      + AfterRevocation(out.facade, revokeOld, revokeOnClose)
  {
    var request := RequestTokens(GrantFor(f, job));
    if auth.AuthFailed? then
      CloseConfined(f, revokeOnClose);
      Step(f, [request] + Close(f, revokeOnClose))
    else
      var f' := f.(session := auth.session);
      Step(f', [request, StoreSession(auth.session), KillToken(f.session.accessToken)]
               + AfterRevocation(f', revokeOld, revokeOnClose))
  }

  /** What a rotation does once the new session is stored and the old token's revocation has answered. */
  function AfterRevocation(f: Facade, revokeOld: Revocation, revokeOnClose: Revocation): (rest: seq<Effect>)
    ensures ArmsNothing(rest)
    ensures revokeOld == RevokeFailed ==> rest == Close(f, revokeOnClose)
    ensures revokeOld == Revoked ==>
      rest == Optionally(f.hasConnection,
        [BeforeRefresh, Disconnect, Connect(f.session.accountId, f.session.accessToken), AfterRefresh])
  {
    if revokeOld == RevokeFailed then
      CloseConfined(f, revokeOnClose);
      Close(f, revokeOnClose)
    else if f.hasConnection then
      [BeforeRefresh, Disconnect, Connect(f.session.accountId, f.session.accessToken), AfterRefresh]
    else []
  }

  // ---- Properties of a rotation ----

  /**
   A rotation whose old token was revoked ends, with a chat connection, by
   reconnecting it with the new credentials between the two rotation events,
   and without one, right after the revocation.
   */
  lemma RotationReconnects(f: Facade, job: Job, renewed: Session, revokeOnClose: Revocation)
    ensures var trace := Rotate(f, job, Authenticated(renewed), Revoked, revokeOnClose).trace;
      && (f.hasConnection ==>
            trace[3..] == [BeforeRefresh, Disconnect, Connect(renewed.accountId, renewed.accessToken), AfterRefresh])
      && (!f.hasConnection ==> |trace| == 3)
      && ShutdownEvent !in trace
  {
  }

  /**
   A failed revocation of the old token leaves the new session stored and
   shuts the facade down, which revokes the NEW access token.
   */
  lemma RevokeFailureCloses(f: Facade, job: Job, renewed: Session, revokeOnClose: Revocation)
    ensures var out := Rotate(f, job, Authenticated(renewed), RevokeFailed, revokeOnClose);
      && out.facade.session == renewed
      && out.trace[3..] == Close(out.facade, revokeOnClose)
      && Precedes(out.trace, KillToken(f.session.accessToken), KillToken(renewed.accessToken))
  {
    var out := Rotate(f, job, Authenticated(renewed), RevokeFailed, revokeOnClose);
    var c := out.trace[3..];
    assert out.trace[2] == KillToken(f.session.accessToken);
    assert c[|c| - 1] == KillToken(renewed.accessToken) || c[|c| - 4] == KillToken(renewed.accessToken);
  }

  /**
   Whatever the server answers, a rotation on a facade without a chat
   connection never touches the transport and fires no rotation event.
   */
  lemma NoConnectionNoTransport(f: Facade, job: Job, auth: AuthResult,
                                revokeOld: Revocation, revokeOnClose: Revocation)
    requires !f.hasConnection
    ensures var trace := Rotate(f, job, auth, revokeOld, revokeOnClose).trace;
      && BeforeRefresh !in trace && AfterRefresh !in trace
      && Disconnect !in trace && CloseConnection !in trace
      && forall e :: e in trace ==> !e.Connect?
  {
    var out := Rotate(f, job, auth, revokeOld, revokeOnClose);
    RotationQuiet(f, auth, revokeOld, revokeOnClose, out.trace);
  }

  /** Neither a transport operation nor a rotation event. */
  predicate Quiet(e: Effect)
  {
    !e.BeforeRefresh? && !e.AfterRefresh? && !e.Disconnect? && !e.CloseConnection? && !e.Connect?
  }

  /** Without a chat connection, every effect of a rotation is quiet. */
  lemma RotationQuiet(f: Facade, auth: AuthResult, revokeOld: Revocation, revokeOnClose: Revocation,
                      trace: seq<Effect>)
    requires !f.hasConnection && |trace| > 0 && trace[0].RequestTokens?
    requires auth.AuthFailed? ==> trace == [trace[0]] + Close(f, revokeOnClose)
    requires auth.Authenticated? ==>
      trace == [trace[0], StoreSession(auth.session), KillToken(f.session.accessToken)]
               + AfterRevocation(f.(session := auth.session), revokeOld, revokeOnClose)
    ensures forall e :: e in trace ==> Quiet(e)
  {
    if auth.AuthFailed? {
      CloseConfined(f, revokeOnClose);
    } else {
      CloseConfined(f.(session := auth.session), revokeOnClose);
    }
  }

  /**
   A rotation that obtained a new session with a different access token
   revokes the old access token exactly once, whatever the revocation
   answers are: a failed revocation leads to `close`, which revokes the new
   token instead.
   */
  lemma RotationRevokesOldTokenOnce(f: Facade, job: Job, renewed: Session,
                                    revokeOld: Revocation, revokeOnClose: Revocation)
    requires renewed.accessToken != f.session.accessToken
    ensures var trace := Rotate(f, job, Authenticated(renewed), revokeOld, revokeOnClose).trace;
      && Count(trace, KillToken(f.session.accessToken)) == 1
      && (revokeOld == RevokeFailed <==> KillToken(renewed.accessToken) in trace)
  {
    var out := Rotate(f, job, Authenticated(renewed), revokeOld, revokeOnClose);
    var head := [out.trace[0], StoreSession(renewed), KillToken(f.session.accessToken)];
    var rest := AfterRevocation(out.facade, revokeOld, revokeOnClose);
    AfterRevocationTokens(out.facade, f.session.accessToken, revokeOld, revokeOnClose);
    HeadRevokesOnce(head, f.session.accessToken, renewed.accessToken);
    CountAppend(head, rest, KillToken(f.session.accessToken));
  }

  /** The revocation step of a rotation mentions the old token once and the new one never. */
  lemma HeadRevokesOnce(head: seq<Effect>, oldToken: string, newToken: string)
    requires oldToken != newToken
    requires |head| == 3 && head[0].RequestTokens? && head[1].StoreSession? && head[2] == KillToken(oldToken)
    ensures Count(head, KillToken(oldToken)) == 1
    ensures KillToken(newToken) !in head
  {
    CountOnce(head, KillToken(oldToken), 2);
  }

  /**
   After the old token's revocation, a rotation revokes the stored (new)
   token if and only if the revocation failed, and never the old one.
   */
  lemma AfterRevocationTokens(f: Facade, oldToken: string, revokeOld: Revocation, revokeOnClose: Revocation)
    requires oldToken != f.session.accessToken
    ensures var rest := AfterRevocation(f, revokeOld, revokeOnClose);
      && Count(rest, KillToken(oldToken)) == 0
      && (KillToken(f.session.accessToken) in rest <==> revokeOld == RevokeFailed)
  {
    var rest := AfterRevocation(f, revokeOld, revokeOnClose);
    if revokeOld == RevokeFailed {
      assert KillToken(oldToken) !in rest by {
        CloseConfined(f, revokeOnClose);
      }
      assert KillToken(f.session.accessToken) in rest by {
        CloseOnce(f, revokeOnClose);
        CountZero(rest, KillToken(f.session.accessToken));
      }
    }
    CountZero(rest, KillToken(oldToken));
  }

  /**
   A rejected token request shuts the facade down without ever dropping the
   chat connection through `disconnect`: it is closed exactly once, if there
   is one, and the session is left as it was.
   */
  lemma FailedRotationClosesWithoutDisconnect(f: Facade, job: Job, revokeOld: Revocation, revokeOnClose: Revocation)
    ensures var out := Rotate(f, job, AuthFailed, revokeOld, revokeOnClose);
      && out.facade == f
      && Disconnect !in out.trace
      && Count(out.trace, CloseConnection) == (if f.hasConnection then 1 else 0)
      && Count(out.trace, ShutdownEvent) == 1
  {
    var out := Rotate(f, job, AuthFailed, revokeOld, revokeOnClose);
    var c := Close(f, revokeOnClose);
    assert Disconnect !in out.trace by {
      CloseConfined(f, revokeOnClose);
    }
    assert Count(out.trace, CloseConnection) == (if f.hasConnection then 1 else 0) by {
      CloseOnce(f, revokeOnClose);
      CountAfterRequest(out.trace[0], c, CloseConnection);
    }
    assert Count(out.trace, ShutdownEvent) == 1 by {
      CloseOnce(f, revokeOnClose);
      CountAfterRequest(out.trace[0], c, ShutdownEvent);
    }
  }

  lemma CountAfterRequest(request: Effect, rest: seq<Effect>, e: Effect)
    requires request.RequestTokens? && !e.RequestTokens?
    ensures Count([request] + rest, e) == Count(rest, e)
  {
    assert ([request] + rest)[1..] == rest;
  }

  // ---- Properties of close ----

  /** A failed revocation cuts `close` short: the full sequence minus its last three steps. */
  lemma CloseTruncatedOnRevokeFailure(f: Facade)
    ensures var full := Close(f, Revoked);
      var cut := Close(f, RevokeFailed);
      |cut| == |full| - 3 && cut == full[..|cut|]
  {
  }

  /**
   Nothing guards `close` against a second call: closing twice announces the
   shutdown twice and revokes the stored access token twice.
   */
  lemma CloseTwiceRepeats(f: Facade, first: Revocation, second: Revocation)
    ensures var trace := Close(f, first) + Close(f, second);
      && Count(trace, ShutdownEvent) == 2
      && Count(trace, KillToken(f.session.accessToken)) == 2
  {
    CloseOnce(f, first);
    CloseOnce(f, second);
    CountAppend(Close(f, first), Close(f, second), ShutdownEvent);
    CountAppend(Close(f, first), Close(f, second), KillToken(f.session.accessToken));
  }

  // ---- A whole lifetime ----

  /** Something that can happen to a built facade: a timer fires, or `close` is called. */
  datatype Event =
    | Fire(job: Job, auth: AuthResult, revokeOld: Revocation, revokeOnClose: Revocation)
    | CloseCall(revoke: Revocation)

  /** The effect of one event on the facade. */
  function Handle(f: Facade, e: Event): (out: Step)
    ensures ArmsNothing(out.trace)
    ensures e.CloseCall? ==> out.facade == f
  {
    match e
    case Fire(job, auth, revokeOld, revokeOnClose) => Rotate(f, job, auth, revokeOld, revokeOnClose)
    case CloseCall(revoke) =>
      CloseConfined(f, revoke);
      Step(f, Close(f, revoke))
  }

  /** The facade's state and accumulated effects after `events`, one after another. */
  function Run(f: Facade, events: seq<Event>): Step
    decreases |events|
  {
    if |events| == 0 then Step(f, [])
    else
      var first := Handle(f, events[0]);
      var rest := Run(first.facade, events[1..]);
      Step(rest.facade, first.trace + rest.trace)
  }

  /** No event after construction hands a timer to the executor. */
  lemma {:induction false} RunArmsNothing(f: Facade, events: seq<Event>)
    ensures Timers(Run(f, events).trace) == []
    decreases |events|
  {
    if |events| > 0 {
      var first := Handle(f, events[0]);
      RunArmsNothing(first.facade, events[1..]);
      TimersNone(first.trace);
      TimersAppend(first.trace, Run(first.facade, events[1..]).trace);
    }
  }

  /**
   The timers are never re-armed: over a facade's whole lifetime the only
   timers are the two computed from the session of the initial login, and
   only when automatic refresh is on.
   */
  lemma LifetimeTimers(cfg: Config, s: Session, nowRefresh: Timestamp, nowReauth: Timestamp, events: seq<Event>)
    ensures var c := Construct(cfg, Authenticated(s), AccountFound, nowRefresh, nowReauth);
      Timers(c.trace + Run(c.facade, events).trace)
        == (if cfg.refreshAutomatically then ScheduleRefresh(s, nowRefresh, nowReauth) else [])
  {
    var c := Construct(cfg, Authenticated(s), AccountFound, nowRefresh, nowReauth);
    RunArmsNothing(c.facade, events);
    TimersAppend(c.trace, Run(c.facade, events).trace);
  }

  /** Only rotations write the session: a run of `close` calls leaves the facade as it was. */
  lemma {:induction false} ClosesKeepSession(f: Facade, events: seq<Event>)
    requires forall i :: 0 <= i < |events| ==> events[i].CloseCall?
    ensures Run(f, events).facade == f
    decreases |events|
  {
    if |events| > 0 {
      ClosesKeepSession(f, events[1..]);
    }
  }

  /** Two events in a row: the second is handled on the facade the first left. */
  lemma RunTwo(f: Facade, first: Event, second: Event)
    ensures var one := Handle(f, first);
      var two := Handle(one.facade, second);
      Run(f, [first, second]) == Step(two.facade, one.trace + two.trace)
  {
    var events := [first, second];
    assert events[1..] == [second];
    assert events[1..][1..] == [];
    var two := Handle(Handle(f, first).facade, second);
    assert Run(Handle(f, first).facade, events[1..]) == Step(two.facade, two.trace + []);
    assert two.trace + [] == two.trace;
  }

  /** An effect of an earlier trace precedes an effect of a later one. */
  lemma PrecedesAcross(a: seq<Effect>, b: seq<Effect>, x: Effect, y: Effect, i: nat, j: nat)
    requires i < |a| && a[i] == x && j < |b| && b[j] == y
    ensures Precedes(a + b, x, y)
  {
    assert (a + b)[i] == x && (a + b)[|a| + j] == y;
  }

  /**
   `close` stops the HTTP dispatcher but not the scheduled executor, so a
   timer still pending fires afterwards: it stores the server's session and,
   with a chat connection, connects the manager that `close` has closed.
   */
  lemma FireAfterCloseRotates(f: Facade, revoke: Revocation, job: Job, renewed: Session, revokeOnClose: Revocation)
    ensures var out := Run(f, [CloseCall(revoke), Fire(job, Authenticated(renewed), Revoked, revokeOnClose)]);
      && out.facade.session == renewed
      && (f.hasConnection ==>
            Precedes(out.trace, CloseConnection, Connect(renewed.accountId, renewed.accessToken)))
  {
    RunTwo(f, CloseCall(revoke), Fire(job, Authenticated(renewed), Revoked, revokeOnClose));
    if f.hasConnection {
      var rotation := Rotate(f, job, Authenticated(renewed), Revoked, revokeOnClose);
      RotationReconnects(f, job, renewed, revokeOnClose);
      assert rotation.trace[5] == Connect(renewed.accountId, renewed.accessToken);
      PrecedesAcross(Close(f, revoke), rotation.trace, CloseConnection,
                     Connect(renewed.accountId, renewed.accessToken), 1, 5);
    }
  }

  /**
   The facade does not check that the server issued a new access token: when
   it hands back the old one and its revocation fails, `close` revokes that
   same token a second time.
   */
  lemma SameTokenRevokedTwice(f: Facade, job: Job, renewed: Session, revokeOnClose: Revocation)
    requires renewed.accessToken == f.session.accessToken
    ensures Count(Rotate(f, job, Authenticated(renewed), RevokeFailed, revokeOnClose).trace,
                  KillToken(f.session.accessToken)) == 2
  {
    var out := Rotate(f, job, Authenticated(renewed), RevokeFailed, revokeOnClose);
    var kill := KillToken(f.session.accessToken);
    var head := [out.trace[0], StoreSession(renewed), kill];
    var rest := Close(out.facade, revokeOnClose);
    assert out.trace == head + rest;
    CountOnce(head, kill, 2);
    CloseOnce(out.facade, revokeOnClose);
    CountAppend(head, rest, kill);
  }
}
