/**
 The refresh scheduler: two single-shot timers computed once from the
 session stored at construction time.
 */
module Scheduler {
  import opened Sessions
  import opened Effects

  /** Seconds before expiry at which a rotation job is meant to fire. */
  const SAFETY_MARGIN := 300

  /** Whole seconds from `now + SAFETY_MARGIN` until `expiresAt`; negative once inside the margin. */
  function DelayUntil(now: Timestamp, expiresAt: Timestamp): int
  {
    expiresAt - (now + SAFETY_MARGIN)
  }

  /**
   When a timer handed to the executor at `scheduledAt` fires: the executor
   treats a negative delay as zero.
   */
  function FireAt(scheduledAt: Timestamp, delay: int): (t: Timestamp)
    ensures t >= scheduledAt
    ensures delay >= 0 ==> t - scheduledAt == delay
  {
    if delay < 0 then scheduledAt else scheduledAt + delay
  }

  /**
   `scheduleRefresh`: the refresh job and the re-authentication job, in the
   order they are handed to the executor. The clock is read once for each
   delay (`nowRefresh`, then `nowReauth`).
   */
  function ScheduleRefresh(s: Session, nowRefresh: Timestamp, nowReauth: Timestamp): (timers: seq<Timer>)
    ensures |timers| == 2
    ensures timers[0].job == RefreshJob && timers[1].job == ReauthenticateJob
    ensures timers[0].delay == s.accessTokenExpiresAt - (nowRefresh + SAFETY_MARGIN)
    ensures timers[1].delay == s.refreshTokenExpiresAt - (nowReauth + SAFETY_MARGIN)
    // Each job fires a safety margin before its token expires, or at once if that moment has passed.
    ensures FireAt(nowRefresh, timers[0].delay)
         == if s.accessTokenExpiresAt - SAFETY_MARGIN < nowRefresh then nowRefresh
            else s.accessTokenExpiresAt - SAFETY_MARGIN
    ensures FireAt(nowReauth, timers[1].delay)
         == if s.refreshTokenExpiresAt - SAFETY_MARGIN < nowReauth then nowReauth
            else s.refreshTokenExpiresAt - SAFETY_MARGIN
  {
    [ Timer(RefreshJob, DelayUntil(nowRefresh, s.accessTokenExpiresAt)),
      Timer(ReauthenticateJob, DelayUntil(nowReauth, s.refreshTokenExpiresAt)) ]
  }

  /**
   With the access token expiring before the refresh token (the server's
   promise) and the clock not running backwards between the two reads, the
   refresh job fires no later than the re-authentication job.
   */
  lemma RefreshFiresFirst(s: Session, nowRefresh: Timestamp, nowReauth: Timestamp)
    requires s.accessTokenExpiresAt < s.refreshTokenExpiresAt
    requires nowRefresh <= nowReauth
    ensures var timers := ScheduleRefresh(s, nowRefresh, nowReauth);
      FireAt(nowRefresh, timers[0].delay) <= FireAt(nowReauth, timers[1].delay)
  {
  }
}
