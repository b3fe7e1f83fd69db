/** The environment that init_yogrt consults once per process
    (src/yogrt.c:50-107), and what it makes of it.  The environment is taken
    already parsed: each variable is absent or the integer `atol` made of it. */
module Config {
  import opened Cache

  datatype Option<T> = None | Some(value: T)

  /** What dlopen of the backend library and the backend's rank query
      yield in this process. */
  datatype LoadOutcome = NotFound | Found(rank: int)

  /** YOGRT_INTERVAL1, YOGRT_INTERVAL2, YOGRT_INTERVAL2_START and
      YOGRT_DEFAULT_LIMIT, and the backend's load outcome. */
  datatype Environment = Environment(
    interval1: Option<int>,
    interval2: Option<int>,
    interval2Start: Option<int>,
    defaultLimit: Option<int>,
    backend: LoadOutcome)

  /** An optional override of one policy value, clamped like the setters. */
  function Override(v: Option<int>, current: int): (r: int)
    ensures v.None? ==> r == current
    ensures v.Some? ==> r == Clamp(v.value)
  {
    match v
    case None => current
    case Some(x) => Clamp(x)
  }

  /** The environment parsing of init_yogrt exactly as written: a negative
      YOGRT_INTERVAL2_START zeroes interval2 and is itself kept, and a
      negative YOGRT_DEFAULT_LIMIT leaves last_update at the load time. */
  function ConfigureAsWritten(env: Environment, s: State, now: int): (t: State)
    ensures t.interval1 == Override(env.interval1, s.interval1)
    ensures t.interval2 ==
      if env.interval2Start.Some? && env.interval2Start.value < 0 then 0
      else Override(env.interval2, s.interval2)
    ensures env.interval2Start.Some? ==> t.interval2Start == env.interval2Start.value
    ensures env.interval2Start.None? ==> t.interval2Start == s.interval2Start
    ensures env.defaultLimit.Some? ==>
      t.cachedTimeRem == (if env.defaultLimit.value < 0 then UNKNOWN else env.defaultLimit.value) &&
      t.lastUpdate == now
    ensures env.defaultLimit.None? ==>
      t.cachedTimeRem == s.cachedTimeRem && t.lastUpdate == s.lastUpdate
    ensures t.lastUpdateFailed == s.lastUpdateFailed
  {
    var s1 := if env.interval1.Some? then
                s.(interval1 := if env.interval1.value < 0 then 0 else env.interval1.value)
              else s;
    var s2 := if env.interval2.Some? then
                s1.(interval2 := if env.interval2.value < 0 then 0 else env.interval2.value)
              else s1;
    var s3 := if env.interval2Start.Some? then
                if env.interval2Start.value < 0 then
                  s2.(interval2Start := env.interval2Start.value, interval2 := 0)
                else s2.(interval2Start := env.interval2Start.value)
              else s2;
    if env.defaultLimit.Some? then
      s3.(cachedTimeRem := if env.defaultLimit.value < 0 then UNKNOWN else env.defaultLimit.value,
          lastUpdate := now)
    else s3
  }

  /** A negative YOGRT_INTERVAL2_START leaves interval2_start negative and
      overrides YOGRT_INTERVAL2 with 0. */
  lemma NegativeInterval2StartAsWritten()
    ensures var t := ConfigureAsWritten(
              Environment(None, Some(600), Some(-5), None, NotFound), Initial, 0);
            t.interval2Start == -5 && t.interval2 == 0 && !t.PolicyValid()
  {
  }

  /** A negative YOGRT_DEFAULT_LIMIT leaves the cache unknown but stamps
      last_update with the load time.  With no other negative setting, no
      yogrt_remaining call queries the backend before interval2 has passed
      since the load, and each reports INT_MAX meanwhile. */
  lemma NegativeDefaultLimitAsWritten(env: Environment, now: int)
    requires env.defaultLimit.Some? && env.defaultLimit.value < 0
    requires env.interval2.Some? ==> env.interval2.value > 0
    requires env.interval2Start.Some? ==> env.interval2Start.value >= 0
    requires now != UNKNOWN
    ensures var t := ConfigureAsWritten(env, Initial, now);
            t.cachedTimeRem == UNKNOWN && t.lastUpdate == now && t.interval2 > 0 &&
            forall later :: now <= later < now + t.interval2 ==>
              !NeedUpdate(t, later) && Report(t, later) == INT_MAX
  {
    var t := ConfigureAsWritten(env, Initial, now);
    forall later | now <= later < now + t.interval2
      ensures !NeedUpdate(t, later) && Report(t, later) == INT_MAX
    {
      assert Projected(t, later) < 0 <= t.interval2Start;
    }
  }

  /** The environment parsing of init_yogrt as its messages say it is meant:
      each negative value is clamped in its own field, and a negative default
      limit leaves the cache as if the variable were unset. */
  function Configure(env: Environment, s: State, now: int): (t: State)
    ensures t.interval1 == Override(env.interval1, s.interval1)
    ensures t.interval2 == Override(env.interval2, s.interval2)
    ensures t.interval2Start == Override(env.interval2Start, s.interval2Start)
    ensures s.PolicyValid() ==> t.PolicyValid()
    ensures env.defaultLimit.Some? && env.defaultLimit.value >= 0 ==>
      t.cachedTimeRem == env.defaultLimit.value && t.lastUpdate == now
    ensures env.defaultLimit.None? || env.defaultLimit.value < 0 ==>
      t.cachedTimeRem == s.cachedTimeRem && t.lastUpdate == s.lastUpdate
    ensures t.lastUpdateFailed == s.lastUpdateFailed
  {
    var policy := s.(interval1 := Override(env.interval1, s.interval1),
                     interval2 := Override(env.interval2, s.interval2),
                     interval2Start := Override(env.interval2Start, s.interval2Start));
    if env.defaultLimit.Some? && env.defaultLimit.value >= 0 then
      policy.(cachedTimeRem := env.defaultLimit.value, lastUpdate := now)
    else policy
  }

  /** The two readings agree on every environment that has no negative
      YOGRT_INTERVAL2_START and no negative YOGRT_DEFAULT_LIMIT. */
  lemma ConfigureAgreesAsWritten(env: Environment, s: State, now: int)
    requires env.interval2Start.Some? ==> env.interval2Start.value >= 0
    requires env.defaultLimit.Some? ==> env.defaultLimit.value >= 0
    ensures Configure(env, s, now) == ConfigureAsWritten(env, s, now)
  {
  }

  /** With the corrected parsing the first query is forced unless a valid
      default limit was given, in which case the cache starts seeded at the
      load time. */
  lemma ConfiguredFirstCallForced(env: Environment, now: int, later: int)
    ensures var t := Configure(env, Initial, now);
            t.PolicyValid() &&
            (t.cachedTimeRem == UNKNOWN ==> NeedUpdate(t, later)) &&
            (t.cachedTimeRem != UNKNOWN ==> t.lastUpdate == now && t.cachedTimeRem >= 0)
  {
  }
}
