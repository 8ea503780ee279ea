// The sliding-window limiter of the control API (src/adaptive_quant/api/security.py:49-80).
module RateLimiting {

  // At most `count` calls in any `window` seconds.
  datatype Limit = Limit(count: nat, window: real)

  const LIMITS: map<string, Limit> := map[
    "job" := Limit(30, 60.0), "upload" := Limit(10, 600.0), "control" := Limit(20, 60.0)]

  // The hits later than `from`, in their order.
  function Since(hits: seq<real>, from: real): seq<real> {
    if hits == [] then []
    else
      var before, last := Since(hits[..|hits| - 1], from), hits[|hits| - 1];
      if from < last then before + [last] else before
  }

  // The hits of the last window.
  function Recent(hits: seq<real>, now: real, window: real): seq<real> {
    Since(hits, now - window)
  }

  predicate Admits(hits: seq<real>, now: real, limit: Limit) {
    |Recent(hits, now, limit.window)| < limit.count
  }

  // A refused call leaves the list as it was, old entries and all.
  function After(hits: seq<real>, now: real, limit: Limit): seq<real> {
    if Admits(hits, now, limit) then Recent(hits, now, limit.window) + [now] else hits
  }

  class RateLimiter {
    var hits: map<(string, string), seq<real>>

    constructor ()
      ensures hits == map[]
    {
      hits := map[];
    }

    function Hits(bucket: string, client: string): seq<real>
      reads this
    {
      if (bucket, client) in hits then hits[(bucket, client)] else []
    }

    // What happens under the lock; `now` is the clock reading taken before it.
    method Check(bucket: string, client: string, now: real) returns (ok: bool)
      requires bucket in LIMITS
      modifies this
      ensures ok == Admits(old(Hits(bucket, client)), now, LIMITS[bucket])
      ensures Hits(bucket, client) == After(old(Hits(bucket, client)), now, LIMITS[bucket])
      ensures forall b, c :: (b, c) != (bucket, client) ==> Hits(b, c) == old(Hits(b, c))
    {
      var limit := LIMITS[bucket];
      var known := Hits(bucket, client);
      var recent := [];
      for i := 0 to |known|
        invariant recent == Recent(known[..i], now, limit.window)
      {
        assert known[..i + 1][..i] == known[..i];
        if now - known[i] < limit.window {
          recent := recent + [known[i]];
        }
      }
      assert known[..|known|] == known;
      if |recent| >= limit.count {
        return false;
      }
      recent := recent + [now];
      hits := hits[(bucket, client) := recent];
      return true;
    }
  }

  // ------------------------------------------------------------ the calls of one client

  // The clock readings of one bucket and client in the order the calls are processed, and
  // the hits kept after each.
  ghost predicate IsRun(limit: Limit, times: seq<real>, kept: seq<seq<real>>) {
    && |kept| == |times| + 1
    && kept[0] == []
    && (forall i :: 0 <= i < |times| ==> kept[i + 1] == After(kept[i], times[i], limit))
  }

  // A call is two steps: it reads the clock, and later it gets the lock, under which it
  // prunes, checks and appends. So calls may be processed in another order than they read
  // the clock in, although the clock never runs backwards.
  datatype Call = Call(reading: real, locked: real)

  ghost predicate IsSchedule(calls: seq<Call>) {
    && (forall i :: 0 <= i < |calls| ==> calls[i].reading <= calls[i].locked)
    && (forall i, j :: 0 <= i <= j < |calls| ==> calls[i].locked <= calls[j].locked)
  }

  function Readings(calls: seq<Call>): seq<real> {
    seq(|calls|, i requires 0 <= i < |calls| => calls[i].reading)
  }

  // No reading lies more than `skew` before one that was processed earlier.
  ghost predicate Skewed(times: seq<real>, skew: real) {
    0.0 <= skew && forall i, j :: 0 <= i < j < |times| ==> times[i] <= times[j] + skew
  }

  // The skew is at most the longest wait for the lock.
  lemma WaitsBoundSkew(calls: seq<Call>, wait: real)
    requires IsSchedule(calls) && 0.0 <= wait
    requires forall i :: 0 <= i < |calls| ==> calls[i].locked <= calls[i].reading + wait
    ensures Skewed(Readings(calls), wait)
  {
    forall i, j | 0 <= i < j < |calls| ensures calls[i].reading <= calls[j].reading + wait {
      assert calls[i].reading <= calls[i].locked <= calls[j].locked <= calls[j].reading + wait;
    }
  }

  // The accepted calls among the first `n`: an account the limiter does not keep.
  ghost function Accepted(limit: Limit, times: seq<real>, kept: seq<seq<real>>, n: nat): seq<real>
    requires n <= |times| < |kept|
  {
    if n == 0 then []
    else
      var before := Accepted(limit, times, kept, n - 1);
      if Admits(kept[n - 1], times[n - 1], limit) then before + [times[n - 1]] else before
  }

  lemma RunStart(limit: Limit, times: seq<real>, kept: seq<seq<real>>)
    requires IsRun(limit, times, kept)
    ensures |kept| == |times| + 1 && kept[0] == [] && Accepted(limit, times, kept, 0) == []
  {
    hide After, Admits;
  }

  // One call, in the terms the proofs below need.
  lemma RunStep(limit: Limit, times: seq<real>, kept: seq<seq<real>>, n: nat)
    requires IsRun(limit, times, kept) && n < |times|
    ensures |kept| == |times| + 1
    ensures var t, before := times[n], Accepted(limit, times, kept, n);
      var pruned := Since(kept[n], t - limit.window);
      && kept[n + 1] == (if |pruned| < limit.count then pruned + [t] else kept[n])
      && Accepted(limit, times, kept, n + 1) == (if |pruned| < limit.count then before + [t] else before)
      && (Admits(kept[n], t, limit) <==> |pruned| < limit.count)
  {
    hide Since;
  }

  lemma NothingSince(from: real)
    ensures Since([], from) == []
  {
  }

  lemma SinceAppends(a: seq<real>, x: real, from: real)
    ensures Since(a + [x], from) == if from < x then Since(a, from) + [x] else Since(a, from)
  {
    assert (a + [x])[..|a|] == a;
  }

  // Pruning keeps all that is later than its edge, and adds nothing.
  lemma {:induction false} PruningKeeps(hits: seq<real>, edge: real, from: real)
    ensures edge <= from ==> Since(Since(hits, edge), from) == Since(hits, from)
    ensures |Since(Since(hits, edge), from)| <= |Since(hits, from)|
    ensures edge <= from ==> |Since(hits, from)| <= |Since(hits, edge)|
  {
    if hits != [] {
      var init, last := hits[..|hits| - 1], hits[|hits| - 1];
      PruningKeeps(init, edge, from);
      if edge < last {
        SinceAppends(Since(init, edge), last, from);
      }
    }
  }

  // One call keeps what later moments count of the kept and of the accepted hits equal, if
  // it prunes nothing they count, and never lets the kept ones outnumber the accepted.
  lemma StepCounts(limit: Limit, hits: seq<real>, accepted: seq<real>, t: real, from: real)
    ensures var pruned := Since(hits, t - limit.window);
      var hits', accepted' := if |pruned| < limit.count then pruned + [t] else hits,
                              if |pruned| < limit.count then accepted + [t] else accepted;
      && (t - limit.window <= from && Since(hits, from) == Since(accepted, from) ==>
        Since(hits', from) == Since(accepted', from))
      && (|Since(hits, from)| <= |Since(accepted, from)| ==> |Since(hits', from)| <= |Since(accepted', from)|)
  {
    hide Since;
    PruningKeeps(hits, t - limit.window, from);
    SinceAppends(Since(hits, t - limit.window), t, from);
    SinceAppends(accepted, t, from);
  }

  // The kept list shows exactly the accepted calls later than `from`, for every `from`
  // that no reading so far has pruned past.
  lemma {:induction false} KeptIsAccepted(limit: Limit, times: seq<real>, kept: seq<seq<real>>, n: nat, from: real)
    requires IsRun(limit, times, kept) && n <= |times|
    requires forall i :: 0 <= i < n ==> times[i] - limit.window <= from
    ensures Since(kept[n], from) == Since(Accepted(limit, times, kept, n), from)
  {
    hide *;
    RunStart(limit, times, kept);
    if n > 0 {
      RunStep(limit, times, kept, n - 1);
      KeptIsAccepted(limit, times, kept, n - 1, from);
      StepCounts(limit, kept[n - 1], Accepted(limit, times, kept, n - 1), times[n - 1], from);
    }
  }

  // What is kept was accepted.
  lemma {:induction false} KeptWasAccepted(limit: Limit, times: seq<real>, kept: seq<seq<real>>, n: nat, from: real)
    requires IsRun(limit, times, kept) && n <= |times|
    ensures |Since(kept[n], from)| <= |Since(Accepted(limit, times, kept, n), from)|
  {
    hide *;
    RunStart(limit, times, kept);
    if n > 0 {
      RunStep(limit, times, kept, n - 1);
      KeptWasAccepted(limit, times, kept, n - 1, from);
      StepCounts(limit, kept[n - 1], Accepted(limit, times, kept, n - 1), times[n - 1], from);
    }
  }

  // Accepted calls at times in (from, to].
  function Between(hits: seq<real>, from: real, to: real): seq<real> {
    if hits == [] then []
    else
      var before, last := Between(hits[..|hits| - 1], from, to), hits[|hits| - 1];
      if from < last <= to then before + [last] else before
  }

  lemma NothingBetween(from: real, to: real)
    ensures Between([], from, to) == []
  {
  }

  lemma BetweenAppends(a: seq<real>, x: real, from: real, to: real)
    ensures Between(a + [x], from, to) == if from < x <= to then Between(a, from, to) + [x] else Between(a, from, to)
  {
    assert (a + [x])[..|a|] == a;
  }

  lemma {:induction false} BetweenIsSince(hits: seq<real>, from: real, to: real)
    ensures |Between(hits, from, to)| <= |Since(hits, from)|
    ensures (forall i :: 0 <= i < |hits| ==> hits[i] <= to) ==> Between(hits, from, to) == Since(hits, from)
  {
    if hits != [] {
      BetweenIsSince(hits[..|hits| - 1], from, to);
    }
  }

  lemma {:induction false} AcceptedAreCalls(limit: Limit, times: seq<real>, kept: seq<seq<real>>, n: nat, to: real)
    requires IsRun(limit, times, kept) && n <= |times|
    requires forall i :: 0 <= i < n ==> times[i] <= to
    ensures forall i :: 0 <= i < |Accepted(limit, times, kept, n)| ==> Accepted(limit, times, kept, n)[i] <= to
  {
    hide *;
    RunStart(limit, times, kept);
    if n > 0 {
      RunStep(limit, times, kept, n - 1);
      AcceptedAreCalls(limit, times, kept, n - 1, to);
    }
  }

  // In any run, whatever order the calls get the lock in, no interval as long as the
  // window less the skew holds more than the allowed number of accepted calls.
  lemma {:induction false} NoWindowOverflows(limit: Limit, times: seq<real>, kept: seq<seq<real>>, skew: real,
                                             n: nat, from: real, to: real)
    requires IsRun(limit, times, kept) && n <= |times| && Skewed(times, skew)
    requires to - from <= limit.window - skew
    ensures |Between(Accepted(limit, times, kept, n), from, to)| <= limit.count
  {
    hide *;
    RunStart(limit, times, kept);
    NothingBetween(from, to);
    if n > 0 {
      RunStep(limit, times, kept, n - 1);
      NoWindowOverflows(limit, times, kept, skew, n - 1, from, to);
      BetweenAppends(Accepted(limit, times, kept, n - 1), times[n - 1], from, to);
      if Admits(kept[n - 1], times[n - 1], limit) && times[n - 1] <= to {
        FewBefore(limit, times, kept, skew, n - 1, from, to);
      }
    }
  }

  // A skewed clock prunes nothing that an interval up to `to` counts.
  lemma NothingPruned(times: seq<real>, skew: real, n: nat, to: real)
    requires Skewed(times, skew) && n < |times| && times[n] <= to
    ensures forall i :: 0 <= i < n ==> times[i] <= to + skew
  {
    forall i | 0 <= i < n ensures times[i] <= to + skew {
      assert times[i] <= times[n] + skew;
    }
  }

  // When a call in the interval is let in, the interval is not full.
  lemma FewBefore(limit: Limit, times: seq<real>, kept: seq<seq<real>>, skew: real, n: nat, from: real, to: real)
    requires IsRun(limit, times, kept) && n < |times| && Skewed(times, skew)
    requires to - from <= limit.window - skew
    requires |kept| == |times| + 1 && Admits(kept[n], times[n], limit) && times[n] <= to
    ensures |Between(Accepted(limit, times, kept, n), from, to)| < limit.count
  {
    hide *;
    RunStep(limit, times, kept, n);
    NothingPruned(times, skew, n, to);
    KeptIsAccepted(limit, times, kept, n, from);
    BetweenIsSince(Accepted(limit, times, kept, n), from, to);
    PruningKeeps(kept[n], times[n] - limit.window, from);
    SkewIsNotNegative(times, skew);
  }

  lemma SkewIsNotNegative(times: seq<real>, skew: real)
    requires Skewed(times, skew)
    ensures 0.0 <= skew
  {
  }

  // A call is refused only if at least the allowed number of accepted calls is later than
  // the start of its window, and surely if that many are later than `skew` after it.
  lemma RefusedWhenFull(limit: Limit, times: seq<real>, kept: seq<seq<real>>, skew: real, n: nat)
    requires IsRun(limit, times, kept) && n < |times| && Skewed(times, skew)
    ensures var start := times[n] - limit.window;
      var accepted := Accepted(limit, times, kept, n);
      && (!Admits(kept[n], times[n], limit) ==> limit.count <= |Since(accepted, start)|)
      && (limit.count <= |Since(accepted, start + skew)| ==> !Admits(kept[n], times[n], limit))
  {
    hide *;
    var start := times[n] - limit.window;
    RunStep(limit, times, kept, n);
    SkewIsNotNegative(times, skew);
    NothingPruned(times, skew, n, times[n]);
    KeptWasAccepted(limit, times, kept, n, start);
    KeptIsAccepted(limit, times, kept, n, start + skew);
    PruningKeeps(kept[n], start, start + skew);
  }

  // Where calls are processed in the order of their readings, a call is refused exactly
  // when the window before it is full, with no call counted twice or too long.
  lemma RefusedIffFull(limit: Limit, times: seq<real>, kept: seq<seq<real>>, n: nat)
    requires IsRun(limit, times, kept) && n < |times| && Skewed(times, 0.0)
    ensures !Admits(kept[n], times[n], limit)
       <==> |Between(Accepted(limit, times, kept, n), times[n] - limit.window, times[n])| == limit.count
  {
    hide *;
    var now, start := times[n], times[n] - limit.window;
    RunStep(limit, times, kept, n);
    NothingPruned(times, 0.0, n, now);
    AcceptedAreCalls(limit, times, kept, n, now);
    BetweenIsSince(Accepted(limit, times, kept, n), start, now);
    NoWindowOverflows(limit, times, kept, 0.0, n, start, now);
    RefusedWhenFull(limit, times, kept, 0.0, n);
  }

  // ------------------------------------------------------------ calls that overtake

  function Zeros(n: nat): seq<real> {
    if n == 0 then [] else Zeros(n - 1) + [0.0]
  }

  lemma {:induction false} ZerosCount(n: nat, from: real, to: real)
    ensures |Zeros(n)| == n && (forall i :: 0 <= i < n ==> Zeros(n)[i] == 0.0)
    ensures Since(Zeros(n), from) == if from < 0.0 then Zeros(n) else []
    ensures from < 0.0 <= to ==> |Between(Zeros(n), from, to)| == n
  {
    hide Since, Between;
    NothingBetween(from, to);
    NothingSince(from);
    if n > 0 {
      ZerosCount(n - 1, from, to);
      SinceAppends(Zeros(n - 1), 0.0, from);
      BetweenAppends(Zeros(n - 1), 0.0, from, to);
    }
  }

  // The hits kept while the quota fills up at time zero.
  function Filling(n: nat): seq<seq<real>> {
    if n == 0 then [[]] else Filling(n - 1) + [Zeros(n)]
  }

  lemma {:induction false} FillingIsRun(limit: Limit, n: nat)
    requires 0.0 < limit.window && n <= limit.count
    ensures |Filling(n)| == n + 1 && Filling(n)[n] == Zeros(n) && IsRun(limit, Zeros(n), Filling(n))
    ensures Accepted(limit, Zeros(n), Filling(n), n) == Zeros(n)
  {
    hide *;
    FillingUnfolds(n);
    if n == 0 {
      EmptyIsRun(limit);
    } else {
      FillingIsRun(limit, n - 1);
      ZerosCount(n, 0.0, 0.0);
      ZerosCount(n - 1, -limit.window, 0.0);
      Extend(limit, Zeros(n - 1), Filling(n - 1), 0.0);
    }
  }

  lemma FillingUnfolds(n: nat)
    ensures n == 0 ==> Zeros(n) == [] && Filling(n) == [[]]
    ensures n > 0 ==> Zeros(n) == Zeros(n - 1) + [0.0] && Filling(n) == Filling(n - 1) + [Zeros(n)]
  {
  }

  lemma EmptyIsRun(limit: Limit)
    ensures IsRun(limit, [], [[]]) && Accepted(limit, [], [[]], 0) == []
  {
  }

  // One more call at the end of a run.
  lemma Extend(limit: Limit, times: seq<real>, kept: seq<seq<real>>, t: real)
    requires IsRun(limit, times, kept)
    ensures |kept| == |times| + 1
    ensures var last, before := kept[|times|], Accepted(limit, times, kept, |times|);
      var pruned := Since(last, t - limit.window);
      var after, accepted := if |pruned| < limit.count then pruned + [t] else last,
                             if |pruned| < limit.count then before + [t] else before;
      && IsRun(limit, times + [t], kept + [after])
      && Accepted(limit, times + [t], kept + [after], |times| + 1) == accepted
  {
    hide Since;
    AcceptedPrefix(limit, times, kept, t, After(kept[|times|], t, limit), |times|);
  }

  lemma {:induction false} AcceptedPrefix(limit: Limit, times: seq<real>, kept: seq<seq<real>>, t: real,
    hits: seq<real>, n: nat)
    requires n <= |times| < |kept|
    ensures Accepted(limit, times + [t], kept + [hits], n) == Accepted(limit, times, kept, n)
  {
    hide Since;
    if n > 0 {
      AcceptedPrefix(limit, times, kept, t, hits, n - 1);
    }
  }

  // The full quota at time zero, a call a window later, and one that read the clock `skew`
  // before that and is processed after it.
  function Overtaking(limit: Limit, skew: real): seq<real> {
    Zeros(limit.count) + [limit.window] + [limit.window - skew]
  }

  // A clock that never runs backwards allows it: only the last call waits for the lock,
  // and for no longer than the skew.
  lemma OvertakingCanHappen(limit: Limit, skew: real) returns (calls: seq<Call>)
    requires 0.0 < skew <= limit.window
    ensures IsSchedule(calls) && Readings(calls) == Overtaking(limit, skew)
    ensures forall i :: 0 <= i < |calls| ==> calls[i].locked <= calls[i].reading + skew
  {
    var k, w := limit.count, limit.window;
    calls := seq(k, i => Call(0.0, 0.0)) + [Call(w, w)] + [Call(w - skew, w)];
    ZerosCount(k, 0.0, 0.0);
    assert |Readings(calls)| == |Overtaking(limit, skew)|;
    forall i | 0 <= i < |calls| ensures Readings(calls)[i] == Overtaking(limit, skew)[i] {
      assert i < k ==> calls[i] == Call(0.0, 0.0) && Zeros(k)[i] == 0.0;
    }
  }

  // For every limit of two calls or more and every skew there is a run where any interval
  // longer than the window less the skew, ending there, holds one call too many.
  lemma SkewOverflows(limit: Limit, skew: real, from: real) returns (kept: seq<seq<real>>)
    requires 2 <= limit.count && 0.0 < skew <= limit.window && from < 0.0
    ensures var times := Overtaking(limit, skew);
      && IsRun(limit, times, kept) && Skewed(times, skew)
      && |Between(Accepted(limit, times, kept, |times|), from, limit.window - skew)| == limit.count + 1
  {
    hide Since, Between, IsRun, Accepted, Zeros;
    var k, w, to := limit.count, limit.window, limit.window - skew;
    var zeros := Zeros(k);
    FillingIsRun(limit, k);
    ZerosCount(k, 0.0, 0.0);
    ZerosCount(k, from, to);
    Extend(limit, zeros, Filling(k), w);
    assert [] + [w] == [w];
    kept := Filling(k) + [[w]];
    NothingSince(-skew);
    SinceAppends([], w, -skew);
    Extend(limit, zeros + [w], kept, to);
    kept := kept + [[w] + [to]];
    BetweenAppends(zeros, w, from, to);
    BetweenAppends(zeros + [w], to, from, to);
  }

  // Without skew, a window and the moment it began hold one call more than allowed.
  lemma WindowEdgeOverflows(limit: Limit, from: real) returns (times: seq<real>, kept: seq<seq<real>>)
    requires 1 <= limit.count && 0.0 < limit.window && from < 0.0
    ensures IsRun(limit, times, kept) && Skewed(times, 0.0)
    ensures |Between(Accepted(limit, times, kept, |times|), from, limit.window)| == limit.count + 1
  {
    hide Since, Between, IsRun, Accepted, Zeros;
    var k, w := limit.count, limit.window;
    FillingIsRun(limit, k);
    ZerosCount(k, 0.0, 0.0);
    ZerosCount(k, from, w);
    Extend(limit, Zeros(k), Filling(k), w);
    assert [] + [w] == [w];
    times, kept := Zeros(k) + [w], Filling(k) + [[w]];
    BetweenAppends(Zeros(k), w, from, w);
  }

  // No run of that skew puts too many accepted calls into an interval that long.
  ghost predicate WindowHolds(limit: Limit, skew: real, width: real) {
    forall times, kept, from, to :: IsRun(limit, times, kept) && Skewed(times, skew) && to - from <= width ==>
      |Between(Accepted(limit, times, kept, |times|), from, to)| <= limit.count
  }

  // So the guarantee is for intervals as long as the window less the skew, and no longer.
  lemma WindowHoldsIff(limit: Limit, skew: real, width: real)
    requires 2 <= limit.count && 0.0 <= skew <= limit.window && 0.0 < limit.window
    ensures WindowHolds(limit, skew, width) <==> width <= limit.window - skew
  {
    hide Accepted, Between, Skewed, Overtaking, After;
    if width <= limit.window - skew {
      forall times, kept, from, to | IsRun(limit, times, kept) && Skewed(times, skew) && to - from <= width
        ensures |Between(Accepted(limit, times, kept, |times|), from, to)| <= limit.count
      {
        NoWindowOverflows(limit, times, kept, skew, |times|, from, to);
      }
    } else if skew > 0.0 {
      var kept := SkewOverflows(limit, skew, limit.window - skew - width);
    } else {
      var times, kept := WindowEdgeOverflows(limit, limit.window - width);
    }
  }

  // What the three limits of the API come to, calls processed in the order of their
  // readings: 30 jobs in a minute, 10 uploads in ten, 20 control requests in one.
  lemma BucketsHold()
    ensures LIMITS.Keys == {"job", "upload", "control"}
    ensures LIMITS["job"].count == 30 && WindowHolds(LIMITS["job"], 0.0, 60.0)
    ensures LIMITS["upload"].count == 10 && WindowHolds(LIMITS["upload"], 0.0, 600.0)
    ensures LIMITS["control"].count == 20 && WindowHolds(LIMITS["control"], 0.0, 60.0)
  {
    WindowHoldsIff(LIMITS["job"], 0.0, 60.0);
    WindowHoldsIff(LIMITS["upload"], 0.0, 600.0);
    WindowHoldsIff(LIMITS["control"], 0.0, 60.0);
    hide WindowHolds;
  }
}
