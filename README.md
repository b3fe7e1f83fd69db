# libyogrt: the cached time-remaining state machine

libyogrt tells a job how many seconds of its batch allocation are left. It
asks a resource-manager backend plugin. It also limits how often it does
so. This project models the core of `src/yogrt.c` in Dafny and proves
properties of that model:

- the process-wide statics: the polling policy `interval1`, `interval2`
  and `interval2_start`; the cache `cached_time_rem` and `last_update`;
  the `last_update_failed` flag; `rank`; the init flag;
- the refresh decision `need_update`;
- `yogrt_remaining`, with its gating on the backend and the rank, its
  update and extrapolation, and its report;
- `init_yogrt`, run once per process;
- the three interval setters and getters.

Layout:

- `cache.dfy` (module `Cache`) holds the statics as one value, `State`. It
  defines the pure decisions over that value: `NeedUpdate`, `Refresh` (what
  happens to the cache after a query), `Report` (the value handed back) and
  `Clamp`. Lemmas state the refresh policy property by property.
- `config.dfy` (module `Config`) covers the environment reading of
  `init_yogrt`. It comes in two versions: as written, and as its own
  messages say it was meant (see Findings).
- `yogrt.dfy` (module `Yogrt`) has class `Context`, whose fields are the
  statics of one process. Its methods are the entry points. Each one
  modifies the object and is specified through the `Cache` functions. The
  class invariant `Valid` says three things. The policy stays
  non-negative; this holds because init uses the corrected environment
  reading (see Findings), while under the code as written
  (`Config.ConfigureAsWritten`) a negative YOGRT_INTERVAL2_START stays
  negative. Before init the statics hold their initial values. After init
  the backend and the rank are fixed by the load outcome.
- `trace.dfy` (module `Trace`) defines `Run`, a sequence of
  `yogrt_remaining` calls on the rank-0 process of a loaded backend. It
  proves properties that span several calls: the capture time never goes
  back, no query happens inside a quiet period, and, while no estimate has
  ever been obtained, a backend that never answers is asked on every call. It also works through examples under
  the default policy.

External inputs become parameters or constants of the model:

- The clock (`time(NULL)`) is the `now` parameter of every entry point.
- The backend's answer is the `answer` parameter of `Context.Remaining`. A
  ghost out-parameter `queried` says whether the backend was called.
- What the environment, `dlopen` and the backend's rank query would give
  the process is the constant `Context.env`.

The sentinel `-1` is modelled as the plain integer it is. A backend
answer of `-1` is a failure. Any other answer is stored, negative values
too (`Cache.NegativeAnswerIsStored`). When a failed query counts a seeded
estimate down to exactly `-1`, the estimate does not stay seeded. The
cache then reads as "unknown", and the report jumps from 0 to `INT_MAX`
(`Cache.ExtrapolationCanReachUnknown`). This model keeps that behaviour as
the code has it.

Behaviour of src/yogrt.c that the model keeps, though a reader might
expect otherwise:

- Missing backend entry points are not detected. `dlsym` results are used
  unchecked. The load outcome is just "found, with this rank" or "not
  found".
- Negative backend answers other than `-1` are stored as valid estimates.
  They are not treated as "unknown".
- A seeded cache can become "unknown" again, as described above.
- As written, a negative `YOGRT_INTERVAL2_START` zeroes the near interval
  (`interval2`) and stays negative itself. Only `Config.ConfigureAsWritten`
  follows the code here. The process model (`Context.Init`) uses the
  corrected reading `Config.Configure`, which clamps `interval2_start` to 0
  and leaves `interval2` alone (see Findings).

## Model

| member | source | states |
|---|---|---|
| `Cache.Clamp` | src/yogrt.c:199-227 | the stored value is never negative; a non-negative argument is stored as given, a negative one as 0 |
| `Cache.NeedUpdate` | src/yogrt.c:116-139 | a never-updated cache always needs a query; otherwise a query is due exactly when the elapsed time reaches the interval in force for the projected remaining time, or when the last query failed and 300 s have passed |
| `Cache.Refresh` | src/yogrt.c:157-172 | the policy is kept; a valid answer is stored with `now` and clears the flag; a failure sets the flag, and it either moves a seeded estimate to `now` keeping its projection at every later time, or leaves an unknown cache and its timestamp alone |
| `Cache.Report` | src/yogrt.c:174-186 | the report is never negative; it is INT_MAX for an unknown cache, otherwise the projected remaining time floored at 0 |
| `Cache.FirstCallPriority` | src/yogrt.c:122-124 | when `last_update` is -1 a query is due whatever the cache, the flag and the policy |
| `Cache.FarCadence` | src/yogrt.c:118-125 | above `interval2_start` a query is due once `interval1` has elapsed; with no failure pending, only then |
| `Cache.NearCadence` | src/yogrt.c:118-128 | at or below `interval2_start` a query is due once `interval2` has elapsed; with no failure pending, only then |
| `Cache.FailureBackoff` | src/yogrt.c:129-136 | when the cadence has not come round, a query is due exactly when the last one failed and 300 s have elapsed; otherwise none is |
| `Cache.RegimeFollowsProjection` | src/yogrt.c:116-128 | an estimate captured above `interval2_start` comes under the near interval by elapsed time alone, without a new query |
| `Cache.DueAfterBothIntervals` | src/yogrt.c:122-128 | once both intervals have elapsed a query is due in either regime: a bound on how stale the cache can get |
| `Cache.QuietMeansNoQuery` | src/yogrt.c:116-138 | below both intervals, and below 300 s after a failure, no query is due |
| `Cache.SuccessReportsAnswer` | src/yogrt.c:157-183 | right after a valid answer the report is that answer clamped at 0 |
| `Cache.FailedQueryKeepsReport` | src/yogrt.c:163-183 | a failed query on a seeded cache changes no later report, unless the estimate lands on the sentinel |
| `Cache.ExtrapolationCanReachUnknown` | src/yogrt.c:166-175 | an estimate of 310 s captured at 0, extrapolated after a failed query at 311, becomes -1 and is reported as INT_MAX rather than 0 |
| `Cache.NegativeAnswerIsStored` | src/yogrt.c:158-162 | a backend answer below -1 is stored as valid, clears the failure flag and reports 0 |
| `Config.ConfigureAsWritten` | src/yogrt.c:50-94 | as written: a set interval variable is stored clamped at 0, except that a set YOGRT_INTERVAL2_START is stored even when negative, and then zeroes `interval2`; a set YOGRT_DEFAULT_LIMIT always stamps `last_update` with the load time, keeping the value or, when negative, -1; an unset one leaves the cache alone |
| `Config.NegativeInterval2StartAsWritten` | src/yogrt.c:74-83 | as written, YOGRT_INTERVAL2_START=-5 with YOGRT_INTERVAL2=600 leaves `interval2_start` at -5 and `interval2` at 0 |
| `Config.NegativeDefaultLimitAsWritten` | src/yogrt.c:84-94 | as written, any negative YOGRT_DEFAULT_LIMIT leaves the cache unknown but stamped with the load time; with no other negative setting, no call before `interval2` has passed since the load queries the backend, and each reports INT_MAX |
| `Config.Override` | src/yogrt.c:56-73 | an unset variable keeps the current value; a set one is stored clamped at 0 |
| `Config.Configure` | src/yogrt.c:50-94 | each set interval variable is stored clamped in its own field; a non-negative default limit seeds the cache at the load time; otherwise the cache is untouched; the policy stays non-negative |
| `Config.ConfigureAgreesAsWritten` | src/yogrt.c:56-94 | the corrected and the as-written parsing agree on every environment without a negative YOGRT_INTERVAL2_START or YOGRT_DEFAULT_LIMIT |
| `Config.ConfiguredFirstCallForced` | src/yogrt.c:84-94 | after the corrected init the policy is non-negative; an unknown cache forces the first query at any time; a seeded one is non-negative and stamped with the load time |
| `Yogrt.Context.constructor` | src/yogrt.c:23-33 | the statics start uninitialised: no backend, rank 0, intervals 900/300/1800, cache and timestamp -1, no failure |
| `Yogrt.Context.Init` | src/yogrt.c:43-110 | the body runs once, guarded by `initialized`; later calls change nothing; the first call applies the environment and records whether the backend loaded and its rank |
| `Yogrt.Context.ReadEnvironment` | src/yogrt.c:50-94 | the environment is applied field by field, with the result `Config.Configure` describes (the corrected reading; see Left out) |
| `Yogrt.Context.Remaining` | src/yogrt.c:141-187 | with no backend it returns INT_MAX; with rank ≠ 0 it returns -1; in both cases the backend is not queried and state is kept. On rank 0 it queries exactly when `NeedUpdate` holds, moves to `Step` of the state and returns `Report` of the new state; a call that does not query leaves the state as init left it |
| `Yogrt.Context.SetInterval1` | src/yogrt.c:199-207 | after init, `interval1` becomes the clamped argument and nothing else changes |
| `Yogrt.Context.SetInterval2` | src/yogrt.c:209-217 | after init, `interval2` becomes the clamped argument and nothing else changes |
| `Yogrt.Context.SetInterval2Start` | src/yogrt.c:219-227 | after init, `interval2_start` becomes the clamped argument and nothing else changes |
| `Yogrt.Context.GetInterval1` | src/yogrt.c:229-233 | after init, returns `interval1`, which is non-negative |
| `Yogrt.Context.GetInterval2` | src/yogrt.c:235-239 | after init, returns `interval2`, which is non-negative |
| `Yogrt.Context.GetInterval2Start` | src/yogrt.c:241-245 | after init, returns `interval2_start`, which is non-negative under the corrected init (as written, a negative YOGRT_INTERVAL2_START is returned as it is; see `Config.ConfigureAsWritten`) |
| `Yogrt.SetThenGetInterval1` | src/yogrt.c:199-233 | setting `interval1` and then reading it gives the clamped argument |
| `Yogrt.SetThenGetInterval2` | src/yogrt.c:209-239 | setting `interval2` and then reading it gives the clamped argument |
| `Yogrt.SetThenGetInterval2Start` | src/yogrt.c:219-245 | setting `interval2_start` and then reading it gives the clamped argument |
| `Yogrt.SettersAreIndependent` | src/yogrt.c:199-227 | once initialised, calling the three setters in turn leaves each interval at its own clamped argument, and the cache, the flag, the backend and the rank as they were |
| `Yogrt.NonAuthoritativeIsInert` | src/yogrt.c:141-155 | on a process with rank ≠ 0, any sequence of queries returns -1 every time, never calls the backend, and leaves the state as init left it |
| `Trace.Run` | src/yogrt.c:141-187 | over any sequence of calls there is one report and one query flag per call; every report is non-negative; the policy is kept |
| `Trace.LastUpdateMonotone` | src/yogrt.c:157-172 | along chronological calls `last_update` never goes back and never passes the latest clock reading |
| `Trace.QuietRun` | src/yogrt.c:116-139 | while every call is within every interval that could apply, no call queries, the state is kept, and each call reports the countdown of the same estimate |
| `Trace.UnansweredKeepsQuerying` | src/yogrt.c:122-175 | while no estimate was ever obtained and the backend keeps failing, every call queries and reports INT_MAX; the cache and timestamp stay -1 |
| `Trace.SuccessThenQuiet` | src/yogrt.c:118-162 | after a successful query, calls within both intervals of it neither query nor change the state |
| `Trace.FarRegimeExample` | src/yogrt.c:118-125 | (2000 s at t0, default policy): no query at t0+100, reporting 1900; a query at t0+950 |
| `Trace.NearRegimeExample` | src/yogrt.c:118-128 | (1000 s at t0, default policy): no query at t0+250; a query at t0+310 |
| `Trace.FailureBackoffExample` | src/yogrt.c:129-171 | (5000 s at t0): a failed query at t0+900 counts the estimate down to 4100; no retry at t0+1199; a retry at t0+1200; reports 4100, 3801, 3800 |

## Findings

| source | as written | input that shows it | evidently intended | confidence | as-written member | corrected member |
|---|---|---|---|---|---|---|
| src/yogrt.c:78-80 | a negative YOGRT_INTERVAL2_START sets `interval2` to 0 and keeps the negative `interval2_start` | YOGRT_INTERVAL2_START=-5, YOGRT_INTERVAL2=600: `interval2_start` is -5, `interval2` is 0 | set `interval2_start` to 0, as the accompanying message says | high; not executed | `Config.NegativeInterval2StartAsWritten` | `Config.Configure` |
| src/yogrt.c:84-93 | a negative YOGRT_DEFAULT_LIMIT resets `cached_time_rem` to -1 but leaves `last_update` at the load time | YOGRT_DEFAULT_LIMIT=-10, first `yogrt_remaining` in the load second: no backend query, INT_MAX reported until `interval2` has passed | leave the limit uninitialised, as the message says, so that the first call queries the backend | medium; not executed | `Config.NegativeDefaultLimitAsWritten` | `Config.ConfiguredFirstCallForced` |

`Context.Init` uses the corrected reading, `Config.Configure`. The reading
as written is `Config.ConfigureAsWritten`.

## Left out

- Dynamic loading (`dlopen`, `dlsym`, `dlerror`), the backend's `init`
  and `name`: these are foreign calls. Only their outcome is modelled: found
  with a rank, or not found.
- The backend's remaining-time function: it is an external plugin. Its
  answer is a parameter, and the arguments it would receive are not
  modelled.
- `getenv`, `atol` and the `(int)` casts: process I/O and string parsing.
  Each variable is given as absent or as the integer `atol` yields.
  YOGRT_DEBUG and `verbosity` only feed logging and the backend's `init`.
- `time(NULL)`: it is the `now` parameter. `yogrt_remaining` reads the
  clock once for itself and again inside `init_yogrt`. The model uses one
  reading for both.
- `debug` and `debug3` logging, including the wrong variable printed by
  the `interval2_start` setter: output only.
- The Fortran wrappers and the `yogrt_get_time` alias: they only forward
  to the modelled functions.
- C `int` and `time_t` widths: unbounded integers are used. The
  truncation of `now - last_update` into an `int` and overflow in the
  extrapolation are not modelled.
- Thread safety of the lazy init: the library is single-threaded by design.
- `Yogrt.Context.Init`: it follows the corrected environment reading
  (Findings), not the code of src/yogrt.c:78-80 and 84-93 as written. That
  code is modelled separately as `Config.ConfigureAsWritten`.
- `Yogrt.Context.ReadEnvironment`: it computes the corrected reading
  `Config.Configure`. On a negative YOGRT_INTERVAL2_START it stores 0 and
  keeps `interval2`, where src/yogrt.c:75,78-80 store the negative value
  and zero `interval2`. On a negative YOGRT_DEFAULT_LIMIT it leaves the
  cache and `last_update` untouched, where src/yogrt.c:85-90 store -1 and
  stamp `last_update` with the load time.
- `Yogrt.Context.GetInterval2Start`: its non-negative result relies on the
  corrected init; as written the getter can return a negative value.
