// The fixed-window request limiter (src/auth.rs rate_limit): one stored counter and window start per
// key.  Times are microseconds.
module RateLimit {
  import opened Wrappers

  const WINDOW: int := 60_000_000
  const MAX_I32: int := 0x7FFF_FFFF

  datatype Bucket = Bucket(requests: int, start: int)

  datatype Failure = RateLimited | CounterOverflow

  // The upsert: a new or expired window starts at one, otherwise the counter grows.
  function Counted(bucket: Option<Bucket>, now: int): Option<Bucket> {
    if bucket.None? then Some(Bucket(1, now))
    else if bucket.value.start <= now - WINDOW then Some(Bucket(1, now))
    else if bucket.value.requests == MAX_I32 then None
    else Some(Bucket(bucket.value.requests + 1, bucket.value.start))
  }

  function Judged(bucket: Option<Bucket>, limit: int, now: int): Result<(), Failure> {
    var counted := Counted(bucket, now);
    if counted.None? then Err(CounterOverflow)
    else if counted.value.requests > limit then Err(RateLimited)
    else Ok(())
  }

  class RateBuckets {
    var rows: map<string, Bucket>

    function At(key: string): Option<Bucket>
      reads this
    {
      if key in rows then Some(rows[key]) else None
    }

    constructor ()
      ensures rows == map[]
    {
      rows := map[];
    }

    // A failed statement leaves the row as it was.
    method Check(key: string, limit: int, now: int) returns (verdict: Result<(), Failure>)
      modifies this
      ensures verdict == Judged(old(At(key)), limit, now)
      ensures At(key) == if Counted(old(At(key)), now).Some? then Counted(old(At(key)), now) else old(At(key))
      ensures forall other :: other != key ==> At(other) == old(At(other))
    {
      var requests, start := 1, now;
      if key in rows && rows[key].start > now - WINDOW {
        if rows[key].requests == MAX_I32 {
          return Err(CounterOverflow);
        }
        requests, start := rows[key].requests + 1, rows[key].start;
      }
      rows := rows[key := Bucket(requests, start)];
      if requests > limit {
        return Err(RateLimited);
      }
      verdict := Ok(());
    }
  }

  // One request and the bucket it left.
  datatype Served = Served(time: int, bucket: Bucket, accepted: bool)

  predicate Serves(bucket: Option<Bucket>, limit: int, served: Served) {
    && served.accepted == Judged(bucket, limit, served.time).Ok?
    && Some(served.bucket) == if Counted(bucket, served.time).Some? then Counted(bucket, served.time) else bucket
  }

  // The requests of one key, in order, at times that never run backwards.
  ghost predicate Trace(limit: int, trace: seq<Served>) {
    && (forall i, j :: 0 <= i <= j < |trace| ==> trace[i].time <= trace[j].time)
    && (trace != [] ==> Serves(None, limit, trace[0]))
    && forall i, j {:trigger trace[i], trace[j]} :: 0 <= i && j == i + 1 && j < |trace| ==> Serves(Some(trace[i].bucket), limit, trace[j])
  }

  function AcceptedFrom(trace: seq<Served>, start: int): nat {
    if trace == [] then 0
    else
      var last := trace[|trace| - 1];
      AcceptedFrom(trace[..|trace| - 1], start) + if last.accepted && last.bucket.start == start then 1 else 0
  }

  function AcceptedWithin(trace: seq<Served>, from: int): nat {
    if trace == [] then 0
    else
      var last := trace[|trace| - 1];
      AcceptedWithin(trace[..|trace| - 1], from) + if last.accepted && from <= last.time < from + WINDOW then 1 else 0
  }

  function Cap(count: int, limit: int): int {
    if limit < 0 then 0 else if count <= limit then count else limit
  }

  lemma TracePrefix(limit: int, trace: seq<Served>)
    requires Trace(limit, trace) && trace != []
    ensures Trace(limit, trace[..|trace| - 1])
  {
  }

  // Where the windows lie: every request falls inside its own window, starts never go back, and two
  // different windows are at least a window apart.
  lemma {:induction false} WindowsApart(limit: int, trace: seq<Served>, i: nat, j: nat)
    requires Trace(limit, trace) && i <= j < |trace|
    ensures trace[i].bucket.start <= trace[i].time < trace[i].bucket.start + WINDOW
    ensures trace[i].bucket.start == trace[j].bucket.start || trace[i].bucket.start + WINDOW <= trace[j].bucket.start
    ensures trace[i].bucket.start == trace[j].bucket.start ==> trace[i].bucket.requests <= trace[j].bucket.requests
    ensures trace[i].bucket.requests >= 1
    decreases j
  {
    if i < j {
      WindowsApart(limit, trace, i, j - 1);
      WindowsApart(limit, trace, j - 1, j - 1);
      assert Serves(Some(trace[j - 1].bucket), limit, trace[j]);
    } else if i > 0 {
      WindowsApart(limit, trace, i - 1, i - 1);
      assert Serves(Some(trace[i - 1].bucket), limit, trace[i]);
    }
  }

  // Within one window exactly the first `limit` requests are accepted.
  lemma {:induction false} WindowBound(limit: int, trace: seq<Served>, start: int)
    requires Trace(limit, trace)
    ensures AcceptedFrom(trace, start) <= Cap(limit, limit)
    ensures trace != [] && trace[|trace| - 1].bucket.start == start ==>
              AcceptedFrom(trace, start) == Cap(trace[|trace| - 1].bucket.requests, limit)
    ensures trace != [] && trace[|trace| - 1].bucket.start < start ==> AcceptedFrom(trace, start) == 0
    decreases |trace|
  {
    if trace != [] {
      var n := |trace| - 1;
      var before := trace[..n];
      TracePrefix(limit, trace);
      WindowBound(limit, before, start);
      WindowsApart(limit, trace, n, n);
      if n > 0 {
        WindowsApart(limit, trace, n - 1, n);
        assert before[|before| - 1] == trace[n - 1];
        assert Serves(Some(trace[n - 1].bucket), limit, trace[n]);
      }
    }
  }

  lemma Apart(limit: int, trace: seq<Served>, i: nat, k: nat)
    requires Trace(limit, trace) && i < |trace| && k < |trace|
    ensures var a, b := trace[i].bucket.start, trace[k].bucket.start;
            a == b || a + WINDOW <= b || b + WINDOW <= a
    ensures trace[i].bucket.start <= trace[i].time < trace[i].bucket.start + WINDOW
    ensures trace[k].bucket.start <= trace[k].time < trace[k].bucket.start + WINDOW
  {
    WindowsApart(limit, trace, i, i);
    WindowsApart(limit, trace, k, k);
    if i <= k {
      WindowsApart(limit, trace, i, k);
    } else {
      WindowsApart(limit, trace, k, i);
    }
  }

  // A window begins with a request at its own start, and that request is accepted.
  lemma {:induction false} Opener(limit: int, trace: seq<Served>, i: nat) returns (k: nat)
    requires Trace(limit, trace) && i < |trace| && limit >= 1
    ensures k <= i && trace[k].bucket.start == trace[i].bucket.start
    ensures trace[k].time == trace[k].bucket.start && trace[k].accepted
    decreases i
  {
    if i == 0 || (trace[i].bucket.start == trace[i].time && trace[i].accepted) {
      k := i;
    } else {
      WindowsApart(limit, trace, i - 1, i);
      assert Serves(Some(trace[i - 1].bucket), limit, trace[i]);
      k := Opener(limit, trace, i - 1);
    }
  }

  predicate Inside(served: Served, from: int) {
    from <= served.time < from + WINDOW
  }

  lemma {:induction false} WithinOneWindow(trace: seq<Served>, from: int, start: int)
    requires forall i :: 0 <= i < |trace| && Inside(trace[i], from) ==> trace[i].bucket.start == start
    ensures AcceptedWithin(trace, from) <= AcceptedFrom(trace, start)
  {
    if trace != [] {
      WithinOneWindow(trace[..|trace| - 1], from, start);
    }
  }

  // k is accepted in the first window but before the interval.
  lemma {:induction false} WithinTwoWindows(trace: seq<Served>, from: int, first: int, last: int, k: nat)
    requires first != last
    requires forall i :: 0 <= i < |trace| && Inside(trace[i], from) ==>
               trace[i].bucket.start == first || trace[i].bucket.start == last
    ensures AcceptedWithin(trace, from) <= AcceptedFrom(trace, first) + AcceptedFrom(trace, last)
    ensures k < |trace| && trace[k].accepted && trace[k].bucket.start == first && trace[k].time < from ==>
              AcceptedWithin(trace, from) + 1 <= AcceptedFrom(trace, first) + AcceptedFrom(trace, last)
  {
    if trace != [] {
      WithinTwoWindows(trace[..|trace| - 1], from, first, last, k);
    }
  }

  // Any half-open minute, wherever it starts, holds at most 2 * limit - 1 accepted requests: it
  // touches at most two windows, and then the request that opened the first lies before it.
  lemma SlidingBound(limit: int, trace: seq<Served>, from: int)
    requires Trace(limit, trace)
    ensures AcceptedWithin(trace, from) <= if limit >= 1 then 2 * limit - 1 else 0
  {
    if i :| 0 <= i < |trace| && Inside(trace[i], from) {
      if j :| 0 <= j < |trace| && Inside(trace[j], from) && trace[j].bucket.start != trace[i].bucket.start {
        Apart(limit, trace, i, j);
        if trace[i].bucket.start < trace[j].bucket.start {
          TwoWindowsBound(limit, trace, from, i, j);
        } else {
          TwoWindowsBound(limit, trace, from, j, i);
        }
      } else {
        WithinOneWindow(trace, from, trace[i].bucket.start);
        WindowBound(limit, trace, trace[i].bucket.start);
      }
    } else {
      WithinOneWindow(trace, from, from + WINDOW);
      NoWindow(limit, trace, from);
    }
  }

  lemma TwoWindowsBound(limit: int, trace: seq<Served>, from: int, i: nat, j: nat)
    requires Trace(limit, trace) && i < |trace| && j < |trace|
    requires Inside(trace[i], from) && Inside(trace[j], from) && trace[i].bucket.start < trace[j].bucket.start
    ensures AcceptedWithin(trace, from) <= if limit >= 1 then 2 * limit - 1 else 0
  {
    var first, last := trace[i].bucket.start, trace[j].bucket.start;
    Apart(limit, trace, i, j);
    forall k | 0 <= k < |trace| && Inside(trace[k], from)
      ensures trace[k].bucket.start == first || trace[k].bucket.start == last
    {
      Apart(limit, trace, i, k);
      Apart(limit, trace, j, k);
    }
    var k := 0;
    if limit >= 1 {
      k := Opener(limit, trace, i);
    }
    WithinTwoWindows(trace, from, first, last, k);
    WindowBound(limit, trace, first);
    WindowBound(limit, trace, last);
  }

  lemma {:induction false} NoWindow(limit: int, trace: seq<Served>, from: int)
    requires forall i :: 0 <= i < |trace| ==> !Inside(trace[i], from)
    ensures AcceptedWithin(trace, from) == 0
  {
    if trace != [] {
      NoWindow(limit, trace[..|trace| - 1], from);
    }
  }

  // The bound is reached for every limit: one request opens a window, the rest of its budget comes
  // at its very end, and a full budget follows as the next window opens.
  function Burst(limit: nat): seq<Served> {
    seq(2 * limit, i requires 0 <= i < 2 * limit =>
      if i == 0 then Served(0, Bucket(1, 0), true)
      else if i < limit then Served(WINDOW - 1, Bucket(i + 1, 0), true)
      else Served(WINDOW, Bucket(i - limit + 1, WINDOW), true))
  }

  lemma BurstIsTrace(limit: nat)
    requires 1 <= limit <= MAX_I32
    ensures Trace(limit, Burst(limit))
  {
    var trace := Burst(limit);
    forall i, j | 0 <= i && j == i + 1 && j < |trace| ensures Serves(Some(trace[i].bucket), limit, trace[j]) {
      assert i + 1 < 2 * limit;
    }
  }

  lemma SlidingBoundIsReached(limit: nat)
    requires 1 <= limit <= MAX_I32
    ensures Trace(limit, Burst(limit))
    ensures AcceptedWithin(Burst(limit), 1) == 2 * limit - 1
  {
    BurstIsTrace(limit);
    BurstAccepted(limit, 2 * limit);
    hide Trace, AcceptedWithin;
    assert Burst(limit)[..2 * limit] == Burst(limit);
  }

  lemma {:induction false} BurstAccepted(limit: nat, n: nat)
    requires 1 <= limit && 1 <= n <= 2 * limit
    ensures AcceptedWithin(Burst(limit)[..n], 1) == n - 1
  {
    var taken := Burst(limit)[..n];
    if n > 1 {
      BurstAccepted(limit, n - 1);
      assert taken[..n - 1] == Burst(limit)[..n - 1];
    } else {
      assert taken[..0] == [];
    }
  }
}
