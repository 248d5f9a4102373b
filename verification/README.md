# Session lifecycle of the Fortnite client facade

This project models the core of `AthenaImpl`, the facade that client code
holds. The facade logs in, signs every outbound HTTP request with the
current bearer token and rotates its tokens on two timers. When asked, it
shuts down in order. The auth server, the chat (XMPP) transport and the
HTTP stack are abstracted away: each answer they can give is a parameter,
and the model is a set of pure functions over immutable records.

The project has these modules:

- `Optional` (`option.dfy`): the nullable value an interceptor action hands on.
- `Sessions` (`session.dfy`): the session record, the server's answers
  (`AuthResult`, `Revocation`), the builder options the core reads, and the
  facade state.
  - The facade state is the stored session, whether a chat connection
    manager exists, and whether logins go through the Kairos flow.
- `Requests` (`request.dfy`): a request as a target plus an ordered list of
  headers.
- `Interceptors` (`interceptors.dfy`):
  - `addInterceptorAction` and `removeInterceptorAction`.
  - The loop that folds the registered actions over a request.
- `Signer` (`signer.dfy`): `intercept`, which adds the three signing headers.
- `Effects` (`effects.dfy`): the ordered trace of outside effects: token
  requests, revocations, the transport, events, and timers handed to the
  executor.
- `Scheduler` (`scheduler.dfy`): `scheduleRefresh`.
- `Lifecycle` (`lifecycle.dfy`):
  - The constructor's ordering.
  - `refresh` and `authenticateNew`: one `Rotate` with a `Job` tag.
  - `close`.
  - Any later sequence of timer firings and `close` calls.

## Model

| member | source | states |
|---|---|---|
| Interceptors.Register | src/main/java/athena/AthenaImpl.java:371-374 | a new action is appended at the end, and the earlier ones are kept as they were |
| Interceptors.UnregisterRemovesFirst | src/main/java/athena/AthenaImpl.java:376-379 | `Unregister`, the model of removal, deletes exactly the first element equal to the action, keeping the rest in order; an absent action leaves the list unchanged |
| Interceptors.UnregisterRemovesOne | src/main/java/athena/AthenaImpl.java:376-379 | removal takes away one occurrence of the action and nothing else (multiset difference) |
| Interceptors.UnregisterUndoesRegister | src/main/java/athena/AthenaImpl.java:371-379 | adding an action that is not yet registered and then removing it restores the list |
| Interceptors.UnregisterBeforeLater | src/main/java/athena/AthenaImpl.java:371-379 | removing an action already present commutes with appending another |
| Interceptors.ApplyActions | src/main/java/athena/AthenaImpl.java:511-514 | the loop starts from the original request, feeds each action exactly the previous action's (possibly null) output, in list order, and returns the last one; that result equals the fold `RunActions` |
| Interceptors.RunActionsAppend | src/main/java/athena/AthenaImpl.java:511-514 | with `RunActions` the fold of the loop, running a concatenated list means running the first part, then handing its result to the second |
| Interceptors.RegisteredActionRunsLast | src/main/java/athena/AthenaImpl.java:371-374 | a newly added action runs last, on what the earlier actions produced |
| Signer.Transformed | src/main/java/athena/AthenaImpl.java:516-517 | a null chain result is replaced by the original request; otherwise the chain's result is kept |
| Signer.NullChainFallsBackToOriginal | src/main/java/athena/AthenaImpl.java:516-520 | a chain ending in null signs the request exactly as an empty chain would |
| Signer.Intercept | src/main/java/athena/AthenaImpl.java:518-530 | if the request is already authorized or there is no session, the original request is forwarded; otherwise the transformed request goes on with its headers unchanged, plus bearer, client identity and correlation id, in that order |
| Signer.InterceptAuthorizesOnce | src/main/java/athena/AthenaImpl.java:518-530 | a forwarded request is either the original one or carries exactly one Authorization header |
| Signer.NoSessionForwardsOriginal | src/main/java/athena/AthenaImpl.java:518-520 | before the first login every request leaves exactly as it came, whatever the actions do |
| Signer.InterceptDropsActionAuthorization | src/main/java/athena/AthenaImpl.java:518-520 | as written, an Authorization header added by an action is dropped, and the request leaves unsigned although a session exists |
| Signer.InterceptIntended | src/main/java/athena/AthenaImpl.java:516-530 | corrected signer: the forwarded request carries an Authorization header exactly when the chain's result has one or a session exists |
| Signer.IntendedAgreesWhenUnauthorized | src/main/java/athena/AthenaImpl.java:518-530 | with a session, the corrected signer differs from the original only when the chain's result already carries Authorization |
| Signer.IntendedDiffersWithoutSession | src/main/java/athena/AthenaImpl.java:519-520 | without a session, the correction changes the result too: an action's changes are kept, where the code as written forwards the original request |
| Scheduler.ScheduleRefresh | src/main/java/athena/AthenaImpl.java:305-310 | refresh job first, re-authentication second, with delays `expiry - (now + 300)`; each job fires 300 s before its token expires, or at once if that moment has passed |
| Scheduler.RefreshFiresFirst | src/main/java/athena/AthenaImpl.java:305-310 | if the access token expires before the refresh token, and the second clock read is not earlier than the first, the refresh job fires no later than the re-authentication job |
| Lifecycle.Construct | src/main/java/athena/AthenaImpl.java:188-248 | a failed login fails construction before anything happens. A facade is built exactly when both the login and the closing account lookup succeed. A failed lookup abandons the object after all of the start-up effects, including the armed timers |
| Lifecycle.BootTrace | src/main/java/athena/AthenaImpl.java:188-248 | the session is stored before anything else. The timers come from that session and are armed only with automatic refresh. The shutdown hook is registered only when asked for, and the chat connection is opened only with XMPP enabled. The account lookup comes last |
| Lifecycle.LifetimeTimers | src/main/java/athena/AthenaImpl.java:195 | over a facade's whole lifetime, the only timers are the two computed at construction; no rotation or close re-arms one |
| Lifecycle.Rotate | src/main/java/athena/AthenaImpl.java:315-355 | a rotation first requests tokens with the job's grant and never arms a timer. If rejected, it keeps the session and closes. Otherwise it stores the new session, then revokes the old access token |
| Lifecycle.RotationReconnects | src/main/java/athena/AthenaImpl.java:321-328 | after a successful revocation, a facade with a connection emits BeforeRefresh, Disconnect, Connect(new id, new token), AfterRefresh, in that order; without one it stops after the revocation; it never shuts down |
| Lifecycle.NoConnectionNoTransport | src/main/java/athena/AthenaImpl.java:322-328 | without a connection manager, no rotation outcome touches the transport or fires a rotation event |
| Lifecycle.RevokeFailureCloses | src/main/java/athena/AthenaImpl.java:319-332 | if revoking the old token fails, the new session stays stored and `close` runs; close revokes the new token after the old one |
| Lifecycle.RotationRevokesOldTokenOnce | src/main/java/athena/AthenaImpl.java:315-333 | when the server issues a different access token, a successful token request revokes the old access token exactly once; the new one is revoked exactly when that revocation failed |
| Lifecycle.SameTokenRevokedTwice | src/main/java/athena/AthenaImpl.java:319-332 | nothing checks that the new access token differs: if the server hands back the old one and its revocation fails, `close` revokes it a second time |
| Lifecycle.FailedRotationClosesWithoutDisconnect | src/main/java/athena/AthenaImpl.java:338-355 | a rejected token request leaves the facade as it was and shuts it down once; the connection, if any, is closed once and never disconnected |
| Lifecycle.Close | src/main/java/athena/AthenaImpl.java:491-504 | the close sequence is: Shutdown event, connection close (only if there is a connection), then revocation of the stored token. After a failed revocation nothing follows; after a successful one come dispatcher stop, pool eviction and listener disposal, in that order |
| Lifecycle.CloseOnce | src/main/java/athena/AthenaImpl.java:491-504 | close announces shutdown once, revokes the stored token once, and closes the connection once, before that revocation. Listeners are dropped only when the revocation went through |
| Lifecycle.CloseConfined | src/main/java/athena/AthenaImpl.java:491-504 | close performs only its six steps, and touches only the stored token, with no timers |
| Lifecycle.CloseTruncatedOnRevokeFailure | src/main/java/athena/AthenaImpl.java:497-503 | a failed revocation yields exactly the full sequence minus its last three steps |
| Lifecycle.CloseTwiceRepeats | src/main/java/athena/AthenaImpl.java:491-504 | close has no guard: a second call announces shutdown again and revokes the token again |
| Lifecycle.FireAfterCloseRotates | src/main/java/athena/AthenaImpl.java:491-504 | `close` leaves the scheduled executor running: a timer firing after it still stores the server's new session, and reconnects a connection that `close` had closed |
| Lifecycle.ClosesKeepSession | src/main/java/athena/AthenaImpl.java:491-504 | no number of close calls changes the stored session or the facade |

## Left out

- Header names are matched case-sensitively here, whereas OkHttp's `Headers.names()` ignores case. A header spelled `authorization` counts as absent in this model.
- OkHttp's header-value validation and the rest of the HTTP chain (`chain.proceed`) are not modelled. The forwarded request is the result.
- The correlation UUID is a parameter, because randomness is not modelled.
- Clock reads are parameters. Timestamps are whole seconds: `Instant`'s sub-second part, and `until` truncating toward zero, are not modelled.
- `scheduleRefresh` reads the clock twice. These are the two parameters `nowRefresh` and `nowReauth`.
- A negative delay makes the JDK's scheduled executor run the job at once. `FireAt` writes this behaviour out, because it belongs to the executor, not to this class.
- Scheduler.FireAt counts each delay from the clock read it was computed with (`nowRefresh` or `nowReauth`). The executor counts it from the `schedule` call (lines 308-309), on its own monotonic clock. The time between the read and the call is not modelled.
- Scheduler.RefreshFiresFirst: assumes the second wall-clock read is not earlier than the first. `Instant.now()` can move backwards. When both deadlines have passed and the second read is earlier, the refresh job can fire after the re-authentication job in this model.
- Concurrency is not modelled: the atomic session reference, the copy-on-write action list, the executor thread and the shutdown-hook thread. A single sequential state stands in for them, and timer firings are events in the order given.
- Lifecycle.Construct: the post-authentication calls are not modelled: killing other sessions, accepting the EULA, and the warning logged when they fail. Neither are the Gson, Retrofit, OkHttp and cookie setup or logging. None of them touches the session or the timers.
- Lifecycle.Construct: the login's exception is modelled as `LoginFailed`, and an error from the account lookup (line 247) as `Abandoned`. The exceptions of `connect`, of the Retrofit and context setup (lines 213-244) and of listener registration are not modelled. Like the lookup's error, any of them would abandon the object after the timers are armed.
- The token exchange and revocation internals are out of scope; so are the XMPP connection manager's internals. Their outcomes are the oracles `AuthResult` and `Revocation`.
- Lifecycle.Close: the IOException of `killToken` is the only failure modelled. Exceptions from the event factory, the transport or the dispatcher are not.
- Lifecycle.Rotate: failures of `disconnect`, `connect` and the rotation events are not modelled. Only the token request and the revocation can fail.
- Lifecycle.Rotate: `AuthFailed` and `RevokeFailed` stand only for the exceptions the job catches, and the two jobs catch different kinds. `refresh` catches `IOException` and `EpicGamesErrorException` (line 329); `authenticateNew` catches `IOException` and `FortniteAuthenticationException` (line 351). Any other exception escapes to the executor: `close` does not run, and a session already stored stays stored. The model has no outcome for that case.
- Lifecycle.RotationRevokesOldTokenOnce: assumes the server issues an access token different from the old one. That is the server's promise, not the facade's; `Lifecycle.SameTokenRevokedTwice` shows what happens otherwise.
- Lifecycle.Rotate: no lemma says that the account id stays the same across a rotation. Lines 319 and 342 store whatever session the server returns, so that is the server's promise, not the facade's.
- The `EventFactory` dispatch to annotated listeners is out of scope: `BeforeRefresh`, `AfterRefresh` and `Shutdown` are opaque trace events.
- `Accounts.java` and `PartyPlaylistData.java` are not part of this model. They are a forwarding wrapper and a data holder.
- Where a reader would expect other behaviour, the model follows the code:
  - One would expect `close` to be idempotent, but the code has no guard. `Lifecycle.CloseTwiceRepeats` states the repetition.
  - One would expect a failed rotation to call the transport's `disconnect`. On a rejected token request, the code calls `close` instead, and that calls the connection manager's `close`. `Lifecycle.FailedRotationClosesWithoutDisconnect` states this.
  - One would expect an already-authorized request to pass through as the chain left it. The code forwards the original request. See Findings.
  - One would expect shutdown to stop the scheduler. `close` stops only the HTTP dispatcher (line 498), never the scheduled executor (line 92). A pending timer still fires after `close`: it stores a new session and reconnects the closed connection manager. `Lifecycle.FireAfterCloseRotates` states this.

## Findings

| source | as written | input that shows it | evidently intended | confidence | as-written member | corrected member |
|---|---|---|---|---|---|---|
| src/main/java/athena/AthenaImpl.java:518-520 | when the transformed request already carries an Authorization header, `chain.proceed(request)` forwards the ORIGINAL request | a session exists, one registered action adds `Authorization: basic custom` to an unsigned request; the request leaves with no Authorization header at all | forward the transformed request (`nextRequestChain`) as it is. The correction changes both conditions of line 519: with no session, the chain's result also goes on in place of the original (`Signer.IntendedDiffersWithoutSession`) | medium, not executed | Signer.InterceptDropsActionAuthorization | Signer.InterceptIntended |
