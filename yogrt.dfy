/** The process-wide state of libyogrt and its public entry points
    (src/yogrt.c).  One `Context` object stands for the statics of one
    process; its `env` is what that process's environment, dlopen and the
    backend's rank query would give init_yogrt.  The clock reading
    `time(NULL)` and the backend's answer are parameters. */
module Yogrt {
  import opened Cache
  import opened Config
  import opened Trace

  /** The rank init_yogrt records: the backend's, or the static default 0
      when no backend was loaded. */
  function RankOf(b: LoadOutcome): int {
    match b
    case NotFound => 0
    case Found(r) => r
  }

  class Context {
    const env: Environment

    var initialized: bool
    var backendLoaded: bool     // backend_handle != NULL
    var rank: int

    var interval1: int
    var interval2: int
    var interval2Start: int

    var cachedTimeRem: int
    var lastUpdate: int
    var lastUpdateFailed: bool

    /** The policy, the cache and the failure flag as one value. */
    function Snapshot(): State
      reads this
    {
      State(interval1, interval2, interval2Start, cachedTimeRem, lastUpdate, lastUpdateFailed)
    }

    /** Before the first entry point runs, the statics hold their initial
        values and no backend is bound; afterwards the backend and the rank
        are those of the load outcome, for good.  The policy stays
        non-negative throughout. */
    ghost predicate Valid()
      reads this
    {
      Snapshot().PolicyValid() &&
      (!initialized ==> Snapshot() == Initial && !backendLoaded && rank == 0) &&
      (initialized ==> backendLoaded == env.backend.Found? && rank == RankOf(env.backend))
    }

    /** The state an entry point called at `now` works on once init_yogrt
        has run. */
    ghost function AfterInit(now: int): State
      reads this
    {
      if initialized then Snapshot() else Configure(env, Initial, now)
    }

    constructor (env: Environment)
      ensures Valid() && !initialized && this.env == env
      ensures Snapshot() == Initial
    {
      this.env := env;
      initialized := false;
      backendLoaded := false;
      rank := 0;
      interval1 := 900;
      interval2 := 300;
      interval2Start := 1800;
      cachedTimeRem := UNKNOWN;
      lastUpdate := UNKNOWN;
      lastUpdateFailed := false;
    }

    /** init_yogrt: runs its body once, guarded by `initialized`; `now` is
        the clock reading used to stamp YOGRT_DEFAULT_LIMIT. */
    method Init(now: int)
      requires Valid()
      modifies this
      ensures Valid() && initialized
      ensures Snapshot() == old(AfterInit(now))
      ensures old(initialized) ==> unchanged(this)
      ensures backendLoaded == env.backend.Found? && rank == RankOf(env.backend)
    {
      if !initialized {
        initialized := true;
        ReadEnvironment(now);
        match env.backend
        case NotFound =>
          return;
        case Found(r) =>
          backendLoaded := true;
          rank := r;
      }
    }

    /** The environment part of init_yogrt's body, in its corrected reading
        (module Config, ConfigureAsWritten for the code as written). */
    method ReadEnvironment(now: int)
      modifies this
      ensures Snapshot() == Configure(env, old(Snapshot()), now)
      ensures initialized == old(initialized)
      ensures backendLoaded == old(backendLoaded) && rank == old(rank)
    {
      if env.interval1.Some? {
        interval1 := env.interval1.value;
        if interval1 < 0 {
          interval1 := 0;
        }
      }
      if env.interval2.Some? {
        interval2 := env.interval2.value;
        if interval2 < 0 {
          interval2 := 0;
        }
      }
      if env.interval2Start.Some? {
        interval2Start := env.interval2Start.value;
        if interval2Start < 0 {
          interval2Start := 0;
        }
      }
      if env.defaultLimit.Some? && env.defaultLimit.value >= 0 {
        cachedTimeRem := env.defaultLimit.value;
        lastUpdate := now;
      }
    }

    /** yogrt_remaining, at clock reading `now`; `answer` is what the
        backend's remaining-time function returns if it is called.
        `queried` tells whether it is called. */
    method Remaining(now: int, answer: int) returns (rc: int, ghost queried: bool)
      requires Valid()
      modifies this
      ensures Valid() && initialized
      ensures !backendLoaded ==>
        rc == INT_MAX && !queried && Snapshot() == old(AfterInit(now))
      ensures backendLoaded && rank != 0 ==>
        rc == -1 && !queried && Snapshot() == old(AfterInit(now))
      ensures backendLoaded && rank == 0 ==>
        queried == NeedUpdate(old(AfterInit(now)), now) &&
        Snapshot() == Step(old(AfterInit(now)), now, answer) &&
        rc == Report(Snapshot(), now)
      ensures !queried ==> Snapshot() == old(AfterInit(now))
    {
      queried := false;
      Init(now);
      if !backendLoaded {
        return INT_MAX, queried;
      }
      if rank != 0 {
        return -1, queried;
      }

      if NeedUpdate(Snapshot(), now) {
        queried := true;
        var rem := answer;
        if rem != UNKNOWN {
          lastUpdateFailed := false;
          cachedTimeRem := rem;
          lastUpdate := now;
        } else {
          lastUpdateFailed := true;
          if cachedTimeRem != UNKNOWN {
            cachedTimeRem := cachedTimeRem - (now - lastUpdate);
            lastUpdate := now;
          }
        }
      }

      if cachedTimeRem == UNKNOWN {
        rc := INT_MAX;
      } else {
        var rem := cachedTimeRem - (now - lastUpdate);
        if rem >= 0 {
          rc := rem;
        } else {
          rc := 0;
        }
      }
    }

    /** yogrt_set_interval1 */
    method SetInterval1(seconds: int, now: int)
      requires Valid()
      modifies this
      ensures Valid() && initialized
      ensures Snapshot() == old(AfterInit(now)).(interval1 := Clamp(seconds))
    {
      Init(now);
      if seconds < 0 {
        interval1 := 0;
      } else {
        interval1 := seconds;
      }
    }

    /** yogrt_set_interval2 */
    method SetInterval2(seconds: int, now: int)
      requires Valid()
      modifies this
      ensures Valid() && initialized
      ensures Snapshot() == old(AfterInit(now)).(interval2 := Clamp(seconds))
    {
      Init(now);
      if seconds < 0 {
        interval2 := 0;
      } else {
        interval2 := seconds;
      }
    }

    /** yogrt_set_interval2_start */
    method SetInterval2Start(secondsBeforeEnd: int, now: int)
      requires Valid()
      modifies this
      ensures Valid() && initialized
      ensures Snapshot() == old(AfterInit(now)).(interval2Start := Clamp(secondsBeforeEnd))
    {
      Init(now);
      if secondsBeforeEnd < 0 {
        interval2Start := 0;
      } else {
        interval2Start := secondsBeforeEnd;
      }
    }

    /** yogrt_get_interval1 */
    method GetInterval1(now: int) returns (r: int)
      requires Valid()
      modifies this
      ensures Valid() && initialized
      ensures Snapshot() == old(AfterInit(now))
      ensures r == interval1 && r >= 0
    {
      Init(now);
      r := interval1;
    }

    /** yogrt_get_interval2 */
    method GetInterval2(now: int) returns (r: int)
      requires Valid()
      modifies this
      ensures Valid() && initialized
      ensures Snapshot() == old(AfterInit(now))
      ensures r == interval2 && r >= 0
    {
      Init(now);
      r := interval2;
    }

    /** yogrt_get_interval2_start */
    method GetInterval2Start(now: int) returns (r: int)
      requires Valid()
      modifies this
      ensures Valid() && initialized
      ensures Snapshot() == old(AfterInit(now))
      ensures r == interval2Start && r >= 0
    {
      Init(now);
      r := interval2Start;
    }
  }

  /** A setter followed by its getter returns the clamped argument. */
  method SetThenGetInterval1(c: Context, seconds: int, now: int, later: int) returns (r: int)
    requires c.Valid()
    modifies c
    ensures c.Valid()
    ensures r == Clamp(seconds)
  {
    c.SetInterval1(seconds, now);
    r := c.GetInterval1(later);
  }

  method SetThenGetInterval2(c: Context, seconds: int, now: int, later: int) returns (r: int)
    requires c.Valid()
    modifies c
    ensures c.Valid()
    ensures r == Clamp(seconds)
  {
    c.SetInterval2(seconds, now);
    r := c.GetInterval2(later);
  }

  method SetThenGetInterval2Start(c: Context, seconds: int, now: int, later: int) returns (r: int)
    requires c.Valid()
    modifies c
    ensures c.Valid()
    ensures r == Clamp(seconds)
  {
    c.SetInterval2Start(seconds, now);
    r := c.GetInterval2Start(later);
  }

  /** Each setter changes its own field only: after all three, each field
      holds its own clamped argument, and the cache, the flag and the
      backend are as before. */
  method SettersAreIndependent(c: Context, far: int, near: int, start: int, now: int)
    requires c.Valid() && c.initialized
    modifies c
    ensures c.Valid() && c.initialized
    ensures c.interval1 == Clamp(far) && c.interval2 == Clamp(near) && c.interval2Start == Clamp(start)
    ensures c.cachedTimeRem == old(c.cachedTimeRem) && c.lastUpdate == old(c.lastUpdate)
    ensures c.lastUpdateFailed == old(c.lastUpdateFailed)
    ensures c.backendLoaded == old(c.backendLoaded) && c.rank == old(c.rank)
  {
    c.SetInterval1(far, now);
    c.SetInterval2(near, now);
    c.SetInterval2Start(start, now);
  }

  /** On a process that is not rank 0, any sequence of yogrt_remaining
      calls returns -1 every time, never calls the backend, and leaves the
      state as init left it. */
  method NonAuthoritativeIsInert(c: Context, calls: seq<Call>)
    returns (reports: seq<int>, ghost queries: seq<bool>)
    requires c.Valid() && c.env.backend.Found? && c.env.backend.rank != 0
    modifies c
    ensures c.Valid()
    ensures |reports| == |calls| && |queries| == |calls|
    ensures forall i :: 0 <= i < |calls| ==> reports[i] == -1 && !queries[i]
    ensures calls != [] ==> c.Snapshot() == old(c.AfterInit(calls[0].now))
    ensures calls == [] ==> c.Snapshot() == old(c.Snapshot())
  {
    reports, queries := [], [];
    var i := 0;
    while i < |calls|
      invariant 0 <= i <= |calls| && c.Valid()
      invariant |reports| == i && |queries| == i
      invariant forall k :: 0 <= k < i ==> reports[k] == -1 && !queries[k]
      invariant i > 0 ==> c.initialized && c.Snapshot() == old(c.AfterInit(calls[0].now))
      invariant i == 0 ==> c.Snapshot() == old(c.Snapshot()) && c.initialized == old(c.initialized)
    {
      var rc;
      ghost var q;
      rc, q := c.Remaining(calls[i].now, calls[i].answer);
      reports, queries := reports + [rc], queries + [q];
      i := i + 1;
    }
  }
}
