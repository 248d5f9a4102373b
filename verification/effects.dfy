/**
 The observable effects of the session lifecycle, in the order the facade
 performs them, and a few ways of reading a trace of them.
 */
module Effects {
  import opened Sessions

  /** The two rotation jobs: exchange the refresh token, or log in again from scratch. */
  datatype Job = RefreshJob | ReauthenticateJob

  /** A job handed to the scheduled executor with its delay in seconds. */
  datatype Timer = Timer(job: Job, delay: int)

  /** What a token request to the authentication server asks for. */
  datatype Grant =
    | RefreshTokenGrant(refreshToken: string) // exchange this refresh token
    | Login(kairos: bool)                      // the configured login flow, exchange-code flow when `kairos`

  datatype Effect =
    | RequestTokens(grant: Grant)               // call to the authentication server
    | StoreSession(session: Session)            // the stored session is replaced
    | RegisterShutdownHook                      // `close` is registered to run at process exit
    | Schedule(timer: Timer)                    // a job is handed to the scheduled executor
    | KillToken(token: string)                  // revocation request for an access token
    | BeforeRefresh                             // before-rotation listeners are invoked
    | Disconnect                                // the chat connection is dropped
    | Connect(accountId: string, accessToken: string) // the chat connection is (re)established
    | AfterRefresh                              // after-rotation listeners are invoked
    | ShutdownEvent                             // shutdown listeners are invoked
    | CloseConnection                           // the chat connection manager is closed
    | StopDispatcher                            // the HTTP dispatcher's threads are stopped
    | EvictConnections                          // the HTTP connection pool is emptied
    | DisposeListeners                          // every listener registration is dropped
    | FindAccount(accountId: string)            // the account record is looked up

  /** How many times `e` occurs in `trace`. */
  function Count(trace: seq<Effect>, e: Effect): nat
  {
    if |trace| == 0 then 0
    else (if trace[0] == e then 1 else 0) + Count(trace[1..], e)
  }

  /** The trace hands nothing to the scheduled executor. */
  predicate ArmsNothing(trace: seq<Effect>)
  {
    forall e :: e in trace ==> !e.Schedule?
  }

  /** The timers a trace hands to the scheduled executor, in order. */
  function Timers(trace: seq<Effect>): seq<Timer>
  {
    if |trace| == 0 then []
    else (if trace[0].Schedule? then [trace[0].timer] else []) + Timers(trace[1..])
  }

  /** Some occurrence of `a` comes strictly before some occurrence of `b`. */
  predicate Precedes(trace: seq<Effect>, a: Effect, b: Effect)
  {
    exists i, j :: 0 <= i < j < |trace| && trace[i] == a && trace[j] == b
  }

  lemma {:induction false} CountAppend(a: seq<Effect>, b: seq<Effect>, e: Effect)
    ensures Count(a + b, e) == Count(a, e) + Count(b, e)
    decreases |a|
  {
    if |a| == 0 {
      assert a + b == b;
    } else {
      assert (a + b)[1..] == a[1..] + b;
      CountAppend(a[1..], b, e);
    }
  }

  /** An effect is counted exactly when it occurs. */
  lemma {:induction false} CountZero(trace: seq<Effect>, e: Effect)
    ensures Count(trace, e) == 0 <==> e !in trace
    decreases |trace|
  {
    if |trace| > 0 {
      assert trace == [trace[0]] + trace[1..];
      CountZero(trace[1..], e);
    }
  }

  /** An effect found at one position and at no other is counted once. */
  lemma {:induction false} CountOnce(trace: seq<Effect>, e: Effect, i: nat)
    requires i < |trace| && trace[i] == e
    requires forall j :: 0 <= j < |trace| && trace[j] == e ==> j == i
    ensures Count(trace, e) == 1
    decreases |trace|
  {
    if i == 0 {
      CountZero(trace[1..], e);
    } else {
      CountOnce(trace[1..], e, i - 1);
    }
  }

  lemma {:induction false} TimersAppend(a: seq<Effect>, b: seq<Effect>)
    ensures Timers(a + b) == Timers(a) + Timers(b)
    decreases |a|
  {
    if |a| == 0 {
      assert a + b == b;
    } else {
      var head := if a[0].Schedule? then [a[0].timer] else [];
      assert (a + b)[0] == a[0];
      assert (a + b)[1..] == a[1..] + b;
      TimersAppend(a[1..], b);
      calc {
        Timers(a + b);
        head + Timers(a[1..] + b);
        head + (Timers(a[1..]) + Timers(b));
        (head + Timers(a[1..])) + Timers(b);
      }
    }
  }

  /** A trace without `Schedule` effects hands no timer to the executor. */
  lemma {:induction false} TimersNone(trace: seq<Effect>)
    requires ArmsNothing(trace)
    ensures Timers(trace) == []
    decreases |trace|
  {
    if |trace| > 0 {
      TimersNone(trace[1..]);
    }
  }
}
