/** The cached time-remaining estimate of libyogrt and the pure decisions
    taken over it (src/yogrt.c).  The process-wide statics that the C code
    keeps are gathered here in one value, `State`; the class in module Yogrt
    holds them as fields and is specified through these functions. */
module Cache {

  /** INT_MAX of a C `int` on the platforms the library targets. */
  const INT_MAX: int := 0x7fff_ffff

  /** FAILED_UPDATE_INTERVAL: seconds after a failed backend query at which a
      retry is allowed even if the normal cadence has not come round. */
  const FAILED_UPDATE_INTERVAL: int := 300

  /** The `-1` sentinel: `cached_time_rem == -1` means "no estimate",
      `last_update == -1` means "never updated", and a backend answer of
      `-1` means "the query failed". */
  const UNKNOWN: int := -1

  /** The polling policy, the cache and the failure flag. */
  datatype State = State(
    interval1: int,        // far cadence (seconds)
    interval2: int,        // near cadence (seconds)
    interval2Start: int,   // projected remaining time at which near cadence starts
    cachedTimeRem: int,    // last known remaining time, or UNKNOWN
    lastUpdate: int,       // time at which cachedTimeRem was captured, or UNKNOWN
    lastUpdateFailed: bool)
  {
    /** Every policy value is non-negative, as every clamp in the library keeps them. */
    predicate PolicyValid() {
      interval1 >= 0 && interval2 >= 0 && interval2Start >= 0
    }

    predicate SamePolicy(other: State) {
      interval1 == other.interval1 && interval2 == other.interval2 &&
      interval2Start == other.interval2Start
    }
  }

  /** The statics as the C file initialises them. */
  const Initial: State := State(900, 300, 1800, UNKNOWN, UNKNOWN, false)

  /** A setter's treatment of its argument: negative seconds are stored as 0. */
  function Clamp(seconds: int): (r: int)
    ensures r >= 0
    ensures seconds >= 0 ==> r == seconds
    ensures seconds < 0 ==> r == 0
  {
    if seconds < 0 then 0 else seconds
  }

  /** Seconds since the cache was captured (`now - last_update`). */
  function Elapsed(s: State, now: int): int {
    now - s.lastUpdate
  }

  /** The REMAINING(now) macro: the cached value counted down by the elapsed time. */
  function Projected(s: State, now: int): int {
    s.cachedTimeRem - Elapsed(s, now)
  }

  /** The cadence in force: the far interval while the projected remaining
      time is above interval2Start, the near interval from there on. */
  function ActiveInterval(s: State, now: int): int {
    if Projected(s, now) > s.interval2Start then s.interval1 else s.interval2
  }

  /** need_update: whether a backend query is due at `now`. */
  function NeedUpdate(s: State, now: int): (rc: bool)
    ensures s.lastUpdate == UNKNOWN ==> rc
    ensures s.lastUpdate != UNKNOWN ==>
      (rc <==> Elapsed(s, now) >= ActiveInterval(s, now) ||
               (s.lastUpdateFailed && Elapsed(s, now) >= FAILED_UPDATE_INTERVAL))
  {
    var rem := Projected(s, now);
    var last := Elapsed(s, now);
    if s.lastUpdate == UNKNOWN then true
    else if rem > s.interval2Start && last >= s.interval1 then true
    else if rem <= s.interval2Start && last >= s.interval2 then true
    else if s.lastUpdateFailed && last >= FAILED_UPDATE_INTERVAL then true
    else false
  }

  /** What yogrt_remaining does with the backend's answer `rem` once it has
      queried: store a valid answer, or mark the failure and count the old
      estimate down to `now`. */
  function Refresh(s: State, now: int, rem: int): (t: State)
    ensures t.SamePolicy(s)
    ensures rem != UNKNOWN ==>
      t.cachedTimeRem == rem && t.lastUpdate == now && !t.lastUpdateFailed
    ensures rem == UNKNOWN ==> t.lastUpdateFailed
    ensures rem == UNKNOWN && s.cachedTimeRem != UNKNOWN ==>
      t.lastUpdate == now && forall later :: Projected(t, later) == Projected(s, later)
    ensures rem == UNKNOWN && s.cachedTimeRem == UNKNOWN ==>
      t.cachedTimeRem == s.cachedTimeRem && t.lastUpdate == s.lastUpdate
  {
    if rem != UNKNOWN then
      s.(lastUpdateFailed := false, cachedTimeRem := rem, lastUpdate := now)
    else if s.cachedTimeRem != UNKNOWN then
      s.(lastUpdateFailed := true,
         cachedTimeRem := s.cachedTimeRem - (now - s.lastUpdate),
         lastUpdate := now)
    else
      s.(lastUpdateFailed := true)
  }

  /** One call of yogrt_remaining on the authoritative process of a loaded
      backend: query only when NeedUpdate says so. */
  function Step(s: State, now: int, rem: int): State {
    if NeedUpdate(s, now) then Refresh(s, now, rem) else s
  }

  /** The value yogrt_remaining reports from the cache: INT_MAX when nothing
      is known, otherwise the projected remaining time floored at 0. */
  function Report(s: State, now: int): (rc: int)
    ensures rc >= 0
    ensures s.cachedTimeRem == UNKNOWN ==> rc == INT_MAX
    ensures s.cachedTimeRem != UNKNOWN ==>
      rc >= Projected(s, now) && (rc == 0 || rc == Projected(s, now))
  {
    if s.cachedTimeRem == UNKNOWN then INT_MAX
    else
      var rem := Projected(s, now);
      if rem >= 0 then rem else 0
  }

  // ---------------------------------------------------------------------
  // The refresh decision, property by property

  /** The first call always queries, whatever the cache, flag and policy. */
  lemma FirstCallPriority(s: State, now: int)
    requires s.lastUpdate == UNKNOWN
    ensures NeedUpdate(s, now)
  {
  }

  /** Far cadence: above interval2Start a query is due once interval1 has
      elapsed (or, after a failure, FAILED_UPDATE_INTERVAL). */
  lemma FarCadence(s: State, now: int)
    requires s.lastUpdate != UNKNOWN
    requires Projected(s, now) > s.interval2Start
    ensures Elapsed(s, now) >= s.interval1 ==> NeedUpdate(s, now)
    ensures !s.lastUpdateFailed ==> (NeedUpdate(s, now) <==> Elapsed(s, now) >= s.interval1)
  {
  }

  /** Near cadence: at or below interval2Start a query is due once interval2
      has elapsed (or, after a failure, FAILED_UPDATE_INTERVAL). */
  lemma NearCadence(s: State, now: int)
    requires s.lastUpdate != UNKNOWN
    requires Projected(s, now) <= s.interval2Start
    ensures Elapsed(s, now) >= s.interval2 ==> NeedUpdate(s, now)
    ensures !s.lastUpdateFailed ==> (NeedUpdate(s, now) <==> Elapsed(s, now) >= s.interval2)
  {
  }

  /** Failure backoff: after a failed query a retry is due 300 seconds on,
      and nothing else makes a query due. */
  lemma FailureBackoff(s: State, now: int)
    requires s.lastUpdate != UNKNOWN
    requires Elapsed(s, now) < ActiveInterval(s, now)
    ensures NeedUpdate(s, now) <==> s.lastUpdateFailed && Elapsed(s, now) >= FAILED_UPDATE_INTERVAL
  {
  }

  /** The cadence is chosen on the projected, not the recorded, remaining
      time: a cache captured in the far regime moves to the near regime by
      the passing of time alone. */
  lemma RegimeFollowsProjection(s: State, now: int)
    requires s.lastUpdate != UNKNOWN && !s.lastUpdateFailed
    requires s.cachedTimeRem > s.interval2Start
    requires Projected(s, now) <= s.interval2Start
    requires s.interval2 <= Elapsed(s, now) < s.interval1
    ensures NeedUpdate(s, now)
  {
  }

  /** An upper bound on the staleness of the cache: once both intervals have
      elapsed a query is due, whichever regime holds. */
  lemma DueAfterBothIntervals(s: State, now: int)
    requires s.lastUpdate != UNKNOWN
    requires Elapsed(s, now) >= s.interval1 && Elapsed(s, now) >= s.interval2
    ensures NeedUpdate(s, now)
  {
  }

  /** Below every interval that could apply, no query is due. */
  predicate Quiet(s: State, now: int) {
    s.lastUpdate != UNKNOWN &&
    Elapsed(s, now) < s.interval1 && Elapsed(s, now) < s.interval2 &&
    (s.lastUpdateFailed ==> Elapsed(s, now) < FAILED_UPDATE_INTERVAL)
  }

  lemma QuietMeansNoQuery(s: State, now: int)
    requires Quiet(s, now)
    ensures !NeedUpdate(s, now)
  {
  }

  // ---------------------------------------------------------------------
  // The update and the report

  /** After a valid answer the report is that answer, floored at 0. */
  lemma SuccessReportsAnswer(s: State, now: int, rem: int)
    requires rem != UNKNOWN
    ensures Report(Refresh(s, now, rem), now) == Clamp(rem)
  {
  }

  /** A failed query of a seeded cache is invisible to the report, now and
      later: extrapolation keeps the projected remaining time, as long as the
      extrapolated value does not land on the sentinel. */
  lemma FailedQueryKeepsReport(s: State, now: int, later: int)
    requires s.cachedTimeRem != UNKNOWN
    requires Projected(s, now) != UNKNOWN
    ensures Report(Refresh(s, now, UNKNOWN), later) == Report(s, later)
  {
  }

  /** The sentinel is an ordinary integer: a seeded estimate that is
      extrapolated to exactly -1 (one second past the deadline) is read as
      "unknown" afterwards, and the report jumps from 0 to INT_MAX. */
  lemma ExtrapolationCanReachUnknown()
    ensures var s := State(900, 300, 1800, 310, 0, false);
            Report(s, 311) == 0 &&
            NeedUpdate(s, 311) &&
            Refresh(s, 311, UNKNOWN).cachedTimeRem == UNKNOWN &&
            Report(Refresh(s, 311, UNKNOWN), 311) == INT_MAX
  {
  }

  /** Negative backend answers other than -1 are stored as valid and report 0. */
  lemma NegativeAnswerIsStored(s: State, now: int, rem: int)
    requires rem < UNKNOWN
    ensures Refresh(s, now, rem).cachedTimeRem == rem
    ensures !Refresh(s, now, rem).lastUpdateFailed
    ensures Report(Refresh(s, now, rem), now) == 0
  {
  }
}
