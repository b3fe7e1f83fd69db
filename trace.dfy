/** Sequences of yogrt_remaining calls on the authoritative process (rank 0)
    of a loaded backend, and what the refresh policy promises over them. */
module Trace {
  import opened Cache

  /** One call: the clock reading, and what the backend would answer if
      it were queried at that moment. */
  datatype Call = Call(now: int, answer: int)

  /** The state after the calls, the value each call reported and whether
      each call queried the backend. */
  datatype Outcome = Outcome(final: State, reports: seq<int>, queried: seq<bool>)

  function Run(s: State, calls: seq<Call>): (r: Outcome)
    ensures |r.reports| == |calls| && |r.queried| == |calls|
    ensures forall i :: 0 <= i < |calls| ==> r.reports[i] >= 0
    ensures r.final.SamePolicy(s)
    decreases |calls|
  {
    if calls == [] then Outcome(s, [], [])
    else
      var c := calls[0];
      var t := Step(s, c.now, c.answer);
      var rest := Run(t, calls[1..]);
      Outcome(rest.final, [Report(t, c.now)] + rest.reports, [NeedUpdate(s, c.now)] + rest.queried)
  }

  /** Clock readings that never go back, starting no earlier than `from`. */
  predicate Chronological(from: int, calls: seq<Call>)
    decreases |calls|
  {
    calls == [] || (from <= calls[0].now && Chronological(calls[0].now, calls[1..]))
  }

  lemma ChronologicalFromEarlier(a: int, b: int, calls: seq<Call>)
    requires a <= b && Chronological(b, calls)
    ensures Chronological(a, calls)
  {
  }

  /** The capture time of the cache never goes back, and never passes the
      latest clock reading, along any chronological run. */
  lemma {:induction false} LastUpdateMonotone(s: State, calls: seq<Call>)
    requires Chronological(s.lastUpdate, calls)
    ensures s.lastUpdate <= Run(s, calls).final.lastUpdate
    ensures calls != [] ==> Run(s, calls).final.lastUpdate <= calls[|calls| - 1].now
    decreases |calls|
  {
    if calls != [] {
      var c := calls[0];
      var t := Step(s, c.now, c.answer);
      assert s.lastUpdate <= t.lastUpdate <= c.now;
      ChronologicalFromEarlier(t.lastUpdate, c.now, calls[1..]);
      LastUpdateMonotone(t, calls[1..]);
    }
  }

  /** Rate limiting: while every call falls short of every interval that
      could apply, the backend is never queried, nothing changes and each
      call reports the countdown of the same estimate. */
  lemma {:induction false} QuietRun(s: State, calls: seq<Call>)
    requires forall i :: 0 <= i < |calls| ==> Quiet(s, calls[i].now)
    ensures Run(s, calls).final == s
    ensures forall i :: 0 <= i < |calls| ==>
      !Run(s, calls).queried[i] && Run(s, calls).reports[i] == Report(s, calls[i].now)
    decreases |calls|
  {
    if calls != [] {
      QuietMeansNoQuery(s, calls[0].now);
      assert forall i :: 0 <= i < |calls[1..]| ==> Quiet(s, calls[1..][i].now) by {
        forall i | 0 <= i < |calls[1..]| ensures Quiet(s, calls[1..][i].now) {
          assert calls[1..][i] == calls[i + 1];
        }
      }
      QuietRun(s, calls[1..]);
    }
  }

  /** While no estimate has ever been obtained and the backend keeps
      failing, every call queries it again and reports INT_MAX. */
  lemma {:induction false} UnansweredKeepsQuerying(s: State, calls: seq<Call>)
    requires s.lastUpdate == UNKNOWN && s.cachedTimeRem == UNKNOWN
    requires forall i :: 0 <= i < |calls| ==> calls[i].answer == UNKNOWN
    ensures Run(s, calls).final.cachedTimeRem == UNKNOWN
    ensures Run(s, calls).final.lastUpdate == UNKNOWN
    ensures calls != [] ==> Run(s, calls).final.lastUpdateFailed
    ensures forall i :: 0 <= i < |calls| ==>
      Run(s, calls).queried[i] && Run(s, calls).reports[i] == INT_MAX
    decreases |calls|
  {
    if calls != [] {
      var t := Step(s, calls[0].now, calls[0].answer);
      assert t == s.(lastUpdateFailed := true);
      assert forall i :: 0 <= i < |calls[1..]| ==> calls[1..][i].answer == UNKNOWN by {
        forall i | 0 <= i < |calls[1..]| ensures calls[1..][i].answer == UNKNOWN {
          assert calls[1..][i] == calls[i + 1];
        }
      }
      UnansweredKeepsQuerying(t, calls[1..]);
    }
  }

  /** After a successful query, a run of calls that each fall within the
      shorter interval since it neither queries nor changes the cache. */
  lemma SuccessThenQuiet(s: State, now: int, answer: int, calls: seq<Call>)
    requires answer != UNKNOWN && NeedUpdate(s, now) && now != UNKNOWN
    requires forall i :: 0 <= i < |calls| ==>
      now <= calls[i].now && calls[i].now - now < s.interval1 && calls[i].now - now < s.interval2
    ensures Run(Step(s, now, answer), calls).final == Step(s, now, answer)
    ensures forall i :: 0 <= i < |calls| ==> !Run(Step(s, now, answer), calls).queried[i]
  {
    var t := Step(s, now, answer);
    assert forall i :: 0 <= i < |calls| ==> Quiet(t, calls[i].now);
    QuietRun(t, calls);
  }

  // ---------------------------------------------------------------------
  // Worked examples with the default policy (900 s far, 300 s near, near
  // cadence from 1800 s before the end)

  /** Far regime: 2000 s captured at t0.  At t0 + 100 the projection is
      1900 and no query is made; at t0 + 950 the far interval has passed and
      one is. */
  lemma FarRegimeExample(t0: int, x: int, y: int)
    requires t0 >= 0
    ensures var s := State(900, 300, 1800, 2000, t0, false);
            Run(s, [Call(t0 + 100, x)]) == Outcome(s, [1900], [false]) &&
            Run(s, [Call(t0 + 950, y)]).queried == [true]
  {
    var s := State(900, 300, 1800, 2000, t0, false);
    assert [Call(t0 + 100, x)][1..] == [];
    assert [Call(t0 + 950, y)][1..] == [];
    assert !NeedUpdate(s, t0 + 100) && NeedUpdate(s, t0 + 950);
  }

  /** Near regime: 1000 s captured at t0.  At t0 + 250 no query is made; at
      t0 + 310 one is. */
  lemma NearRegimeExample(t0: int, x: int, y: int)
    requires t0 >= 0
    ensures var s := State(900, 300, 1800, 1000, t0, false);
            Run(s, [Call(t0 + 250, x)]).queried == [false] &&
            Run(s, [Call(t0 + 310, y)]).queried == [true]
  {
    var s := State(900, 300, 1800, 1000, t0, false);
    assert [Call(t0 + 250, x)][1..] == [];
    assert [Call(t0 + 310, y)][1..] == [];
    assert !NeedUpdate(s, t0 + 250) && NeedUpdate(s, t0 + 310);
  }

  /** Failure backoff: 5000 s captured at t0.  The far-cadence query at
      t0 + 900 fails, the estimate is counted down to 4100 at t0 + 900, and
      the retry comes at t0 + 1200 instead of t0 + 1800. */
  lemma FailureBackoffExample(t0: int, z: int)
    requires t0 >= 0
    ensures var s := State(900, 300, 1800, 5000, t0, false);
            var r := Run(s, [Call(t0 + 900, UNKNOWN), Call(t0 + 1199, z), Call(t0 + 1200, UNKNOWN)]);
            r.queried == [true, false, true] &&
            r.reports == [4100, 3801, 3800] &&
            r.final == State(900, 300, 1800, 3800, t0 + 1200, true)
  {
    var s := State(900, 300, 1800, 5000, t0, false);
    var t := State(900, 300, 1800, 4100, t0 + 900, true);
    var u := State(900, 300, 1800, 3800, t0 + 1200, true);
    var c3 := [Call(t0 + 1200, UNKNOWN)];
    var c2 := [Call(t0 + 1199, z)] + c3;
    var c1 := [Call(t0 + 900, UNKNOWN)] + c2;
    assert Step(s, t0 + 900, UNKNOWN) == t;
    assert Step(t, t0 + 1199, z) == t;
    assert Step(t, t0 + 1200, UNKNOWN) == u;
    assert Run(t, c3) == Outcome(u, [3800], [true]) by {
      assert c3[1..] == [];
    }
    assert Run(t, c2) == Outcome(u, [3801, 3800], [false, true]) by {
      assert c2[1..] == c3;
    }
    assert Run(s, c1) == Outcome(u, [4100, 3801, 3800], [true, false, true]) by {
      assert c1[1..] == c2;
    }
    assert c1 == [Call(t0 + 900, UNKNOWN), Call(t0 + 1199, z), Call(t0 + 1200, UNKNOWN)];
  }
}
