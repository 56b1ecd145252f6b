/** Pacing: one slot per interval, and no catching up on slots missed during a stall. Times are in nanoseconds. */
module RateLimiter {

  const SPIN_THRESHOLD: int := 200_000
  const MAX_SLEEP: int := 20_000_000

  /** What one iteration of the wait loop sees: the clock, and whether a stop was requested. */
  datatype Reading = Reading(now: int, stop: bool)

  /** A sleep of `length` requested at time `at`. */
  datatype Nap = Nap(at: int, length: int)

  /** The deadline after a grant at time `now`. */
  function NextDeadline(next: int, interval: int, now: int): int {
    if now - next < interval then next + interval else now + interval
  }

  /** While the deadline is far off, each reading is followed by a nap that ends 100 us before it, or 20 ms later. */
  function Naps(readings: seq<Reading>, deadline: int): seq<Nap> {
    if readings == [] then []
    else
      var now := readings[|readings| - 1].now;
      Naps(readings[..|readings| - 1], deadline)
      + (if deadline - now <= 200_000 then []
         else [Nap(now, if deadline - now - 100_000 < 20_000_000 then deadline - now - 100_000 else 20_000_000)])
  }

  /** No nap reaches the deadline. */
  lemma {:induction false} NapsEndBefore(readings: seq<Reading>, deadline: int)
    ensures forall n :: n in Naps(readings, deadline) ==> 0 < n.length <= MAX_SLEEP && n.at + n.length <= deadline - 100_000
  {
    if readings != [] {
      NapsEndBefore(readings[..|readings| - 1], deadline);
    }
  }

  class RateLimiter {
    const interval: int
    var next: int

    constructor (interval: int, now: int)
      ensures this.interval == interval && next == now
    {
      this.interval, next := interval, now;
    }

    predicate Enabled() {
      interval > 0
    }

    /** Waits for the next slot, given the readings the loop will see; the last one must let it end. */
    method WaitForSlot(readings: seq<Reading>) returns (granted: nat, naps: seq<Nap>)
      requires exists k :: 0 <= k < |readings| && (readings[k].now >= next || readings[k].stop)
      modifies this
      ensures !Enabled() ==> next == old(next) && naps == []
      ensures granted < |readings|
      ensures Enabled() ==> readings[granted].now >= old(next) || readings[granted].stop
      ensures Enabled() ==> forall k :: 0 <= k < granted ==> readings[k].now < old(next) && !readings[k].stop
      ensures Enabled() ==> next == NextDeadline(old(next), interval, readings[granted].now)
      ensures Enabled() ==> naps == Naps(readings[..granted], old(next))
      ensures forall n :: n in naps ==> 0 < n.length <= MAX_SLEEP && n.at + n.length < old(next)
    {
      granted, naps := 0, [];
      if !Enabled() {
        return;
      }
      while readings[granted].now < next && !readings[granted].stop
        invariant next == old(next)
        invariant granted < |readings|
        invariant forall k :: 0 <= k < granted ==> readings[k].now < next && !readings[k].stop
        invariant naps == Naps(readings[..granted], next)
        decreases |readings| - granted
      {
        assert readings[..granted + 1][..granted] == readings[..granted];
        var now := readings[granted].now;
        var remaining := next - now;
        if remaining > SPIN_THRESHOLD {
          var nap := remaining - SPIN_THRESHOLD / 2;
          naps := naps + [Nap(now, if nap < MAX_SLEEP then nap else MAX_SLEEP)];
        }
        granted := granted + 1;
      }
      NapsEndBefore(readings[..granted], next);
      var now := readings[granted].now;
      next := if now - next < interval then next + interval else now + interval;
    }

    /** Call after call without a stop: the grants are paced, and the deadline is the one that follows from them. */
    method WaitForSlots(calls: seq<seq<Reading>>) returns (grants: seq<int>)
      requires Enabled() && LetsThrough(next, interval, calls)
      modifies this
      ensures |grants| == |calls| && forall i :: 0 <= i < |calls| ==> exists r :: r in calls[i] && r.now == grants[i]
      ensures Paced(old(next), interval, grants) && next == Deadline(old(next), interval, grants, |grants|)
    {
      grants := [];
      ghost var start := next;
      for i := 0 to |calls|
        invariant |grants| == i && LetsThrough(next, interval, calls[i..])
        invariant forall j :: 0 <= j < i ==> exists r :: r in calls[j] && r.now == grants[j]
        invariant Paced(start, interval, grants) && next == Deadline(start, interval, grants, i)
      {
        assert calls[i..][0] == calls[i] && calls[i..][1..] == calls[i + 1..];
        FirstIsIn(calls[i], next);
        var granted, _ := WaitForSlot(calls[i]);
        FirstIsGranted(calls[i], Deadline(start, interval, grants, i), granted);
        PacedExtends(start, interval, grants, calls[i][granted].now);
        grants := grants + [calls[i][granted].now];
      }
    }
  }

  /** The first reading at or after the deadline. */
  function First(readings: seq<Reading>, deadline: int): (k: nat)
    ensures k <= |readings|
  {
    if readings == [] || readings[0].now >= deadline then 0 else 1 + First(readings[1..], deadline)
  }

  /** The clock gets past every deadline while it is waited for, and no stop is requested. */
  predicate LetsThrough(deadline: int, interval: int, calls: seq<seq<Reading>>)
    decreases |calls|
  {
    if calls == [] then true
    else
      var k := First(calls[0], deadline);
      && k < |calls[0]| && (forall i :: 0 <= i < |calls[0]| ==> !calls[0][i].stop)
      && LetsThrough(NextDeadline(deadline, interval, calls[0][k].now), interval, calls[1..])
  }

  lemma {:induction false} FirstIsIn(readings: seq<Reading>, deadline: int)
    ensures var k := First(readings, deadline);
      && (forall i :: 0 <= i < k ==> readings[i].now < deadline)
      && (k < |readings| ==> readings[k].now >= deadline)
  {
    if readings != [] && readings[0].now < deadline {
      FirstIsIn(readings[1..], deadline);
      forall i | 0 <= i < First(readings, deadline) ensures readings[i].now < deadline {
        assert i > 0 ==> readings[i] == readings[1..][i - 1];
      }
    }
  }

  lemma FirstIsGranted(readings: seq<Reading>, deadline: int, granted: nat)
    requires granted < |readings| && readings[granted].now >= deadline
    requires forall i :: 0 <= i < granted ==> readings[i].now < deadline
    ensures granted == First(readings, deadline)
  {
    FirstIsIn(readings, deadline);
  }

  lemma {:induction false} DeadlineOfPrefix(start: int, interval: int, grants: seq<int>, now: int, k: nat)
    requires k <= |grants|
    ensures Deadline(start, interval, grants + [now], k) == Deadline(start, interval, grants, k)
  {
    if k != 0 {
      DeadlineOfPrefix(start, interval, grants, now, k - 1);
    }
  }

  lemma PacedExtends(start: int, interval: int, grants: seq<int>, now: int)
    requires Paced(start, interval, grants) && now >= Deadline(start, interval, grants, |grants|)
    ensures Paced(start, interval, grants + [now])
    ensures Deadline(start, interval, grants + [now], |grants| + 1)
         == NextDeadline(Deadline(start, interval, grants, |grants|), interval, now)
  {
    forall k | 0 <= k <= |grants| ensures NotEarly(start, interval, grants + [now], k) {
      DeadlineOfPrefix(start, interval, grants, now, k);
      assert k < |grants| ==> NotEarly(start, interval, grants, k);
    }
    DeadlineOfPrefix(start, interval, grants, now, |grants|);
  }

  // ------------------------------------------------------------ whole runs

  /** The deadline in force before grant k, when slots were granted at the given times. */
  function Deadline(start: int, interval: int, grants: seq<int>, k: nat): int
    requires k <= |grants|
  {
    if k == 0 then start else NextDeadline(Deadline(start, interval, grants, k - 1), interval, grants[k - 1])
  }

  /** A run before any stop request: no slot is granted before its deadline. */
  ghost predicate Paced(start: int, interval: int, grants: seq<int>) {
    forall k :: 0 <= k < |grants| ==> NotEarly(start, interval, grants, k)
  }

  ghost predicate NotEarly(start: int, interval: int, grants: seq<int>, k: nat)
    requires k < |grants|
  {
    grants[k] >= Deadline(start, interval, grants, k)
  }

  /** After any stall, the next deadline lies behind the grant: nothing is caught up on. */
  lemma DeadlineAfterGrant(start: int, interval: int, grants: seq<int>, k: nat)
    requires interval > 0 && k < |grants|
    ensures Deadline(start, interval, grants, k + 1) > grants[k]
    ensures Deadline(start, interval, grants, k + 1) >= Deadline(start, interval, grants, k) + interval
            || grants[k] < Deadline(start, interval, grants, k)
  {
  }

  /** A grant an interval late or later is followed by a grant no less than an interval after it: no burst makes up for it. */
  lemma LateGrantRestarts(start: int, interval: int, grants: seq<int>, k: nat)
    requires interval > 0 && Paced(start, interval, grants) && k + 1 < |grants|
    requires grants[k] >= Deadline(start, interval, grants, k) + interval
    ensures grants[k + 1] - grants[k] >= interval
  {
    assert NotEarly(start, interval, grants, k + 1);
  }

  /** Nor is more than one interval waited for: behind a grant, the next deadline is at most an interval away. */
  lemma DeadlineIsNear(start: int, interval: int, grants: seq<int>, k: nat)
    requires interval > 0 && Paced(start, interval, grants) && k < |grants|
    ensures grants[k] < Deadline(start, interval, grants, k + 1) <= grants[k] + interval
  {
    assert NotEarly(start, interval, grants, k);
  }

  /** n intervals. */
  function Span(n: nat, interval: int): int {
    if n == 0 then 0 else Span(n - 1, interval) + interval
  }

  lemma {:induction false} SpanIsProduct(n: nat, interval: int)
    ensures Span(n, interval) == n * interval
  {
    if n != 0 {
      SpanIsProduct(n - 1, interval);
      assert (n - 1) * interval + interval == n * interval;
    }
  }

  lemma {:induction false} DeadlinesSpread(start: int, interval: int, grants: seq<int>, k: nat, last: nat)
    requires interval > 0 && Paced(start, interval, grants) && k <= last <= |grants|
    ensures Deadline(start, interval, grants, last) >= Deadline(start, interval, grants, k) + Span(last - k, interval)
    decreases last
  {
    if k < last {
      DeadlinesSpread(start, interval, grants, k, last - 1);
      assert last - 1 - k == last - k - 1;
      assert NotEarly(start, interval, grants, last - 1);
      DeadlineAfterGrant(start, interval, grants, last - 1);
    }
  }

  /** n slots later means more than n - 1 intervals later, for any clock readings and any stalls. */
  lemma NoBurst(start: int, interval: int, grants: seq<int>, k: nat, n: nat)
    requires interval > 0 && Paced(start, interval, grants) && n > 0 && k + n < |grants|
    ensures grants[k + n] - grants[k] > (n - 1) * interval
  {
    DeadlineAfterGrant(start, interval, grants, k);
    DeadlinesSpread(start, interval, grants, k + 1, k + n);
    assert k + n - (k + 1) == n - 1;
    SpanIsProduct(n - 1, interval);
    assert NotEarly(start, interval, grants, k + n);
  }

  ghost predicate OnTime(start: int, interval: int, grants: seq<int>, k: nat)
    requires k < |grants|
  {
    grants[k] - Deadline(start, interval, grants, k) < interval
  }

  ghost predicate OnCadence(start: int, interval: int, grants: seq<int>, k: nat)
    requires k <= |grants|
  {
    Deadline(start, interval, grants, k) == start + k * interval
  }

  /** The deadlines are exactly start + k * interval for as long as, and only as long as, every grant is on time. */
  lemma NoDriftIffOnTime(start: int, interval: int, grants: seq<int>, k: nat)
    requires interval > 0 && k <= |grants|
    ensures (forall j :: 0 <= j <= k ==> OnCadence(start, interval, grants, j))
       <==> (forall j :: 0 <= j < k ==> OnTime(start, interval, grants, j))
  {
    if forall j :: 0 <= j < k ==> OnTime(start, interval, grants, j) {
      forall j | 0 <= j <= k
        ensures OnCadence(start, interval, grants, j)
      {
        OnTimeCadence(start, interval, grants, j);
      }
    }
    if forall j :: 0 <= j <= k ==> OnCadence(start, interval, grants, j) {
      forall j | 0 <= j < k
        ensures OnTime(start, interval, grants, j)
      {
        assert OnCadence(start, interval, grants, j) && OnCadence(start, interval, grants, j + 1);
        assert (j + 1) * interval == j * interval + interval;
      }
    }
  }

  lemma {:induction false} OnTimeCadence(start: int, interval: int, grants: seq<int>, k: nat)
    requires k <= |grants| && forall j :: 0 <= j < k ==> OnTime(start, interval, grants, j)
    ensures OnCadence(start, interval, grants, k)
    decreases k
  {
    if k != 0 {
      OnTimeCadence(start, interval, grants, k - 1);
      assert OnTime(start, interval, grants, k - 1);
      assert k * interval == (k - 1) * interval + interval;
    }
  }
}
