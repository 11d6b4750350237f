/** The heartbeat of a ClusterBinding, written by the konnector and judged by the backend. */
module Heartbeat {
  import opened Kube

  /** lastHeartbeatTime, None for the zero time, and heartbeatInterval. */
  datatype Status = Status(last: Option<int>, interval: nat)

  datatype Condition =
    | Healthy
    | FirstHeartbeatPending
    | HeartbeatIntervalMissing
    | HeartbeatTimeout
    | HeartbeatTimeDrift

  /** Times are stored with the precision of the API, one tick. */
  function Stored(time: int, tick: nat): int
    requires tick > 0
  {
    time - time % tick
  }

  /** ensureHeartbeat followed by the commit of the status. */
  function Beat(s: Status, now: int, interval: nat, tick: nat): Status
    requires tick > 0
  {
    Status(if s.last.None? || now > s.last.value + interval / 2 then Some(Stored(now, tick)) else s.last, interval)
  }

  /** The verdict of the backend; times are in units of which there are `second` in a second. */
  function Judge(s: Status, now: int, second: nat): Condition {
    if s.last.None? then FirstHeartbeatPending
    else if s.interval == 0 then HeartbeatIntervalMissing
    else if now - s.last.value > 2 * s.interval then HeartbeatTimeout
    else if now - s.last.value < 10 * second then HeartbeatTimeDrift
    else Healthy
  }

  /** The status after the konnector has reconciled at each of these times. */
  function StatusAfter(times: seq<int>, interval: nat, tick: nat): Status
    requires tick > 0
  {
    if times == [] then Status(None, 0)
    else Beat(StatusAfter(times[..|times| - 1], interval, tick), times[|times| - 1], interval, tick)
  }

  ghost predicate GapsAtMost(times: seq<int>, gap: nat) {
    forall i | 0 <= i < |times| - 1 :: times[i] <= times[i + 1] <= times[i] + gap
  }

  function Max(a: int, b: int): int {
    if a < b then b else a
  }

  /** The oldest that a heartbeat gets before it is recorded again. Without gaps only the precision counts. */
  function MaxAge(interval: nat, gap: nat, tick: nat): int {
    if gap == 0 then tick - 1 else Max(interval / 2, tick - 1) + gap
  }

  /** From the first heartbeat on, its age never exceeds half an interval plus the longest gap between reconciles; if
      the precision is coarser than half an interval, that counts instead. */
  lemma {:induction false} AgeIsBounded(times: seq<int>, interval: nat, gap: nat, tick: nat, now: int)
    requires times != [] && GapsAtMost(times, gap) && tick > 0
    requires times[|times| - 1] <= now <= times[|times| - 1] + gap
    ensures var s := StatusAfter(times, interval, tick);
            && s.interval == interval && s.last.Some?
            && 0 <= now - s.last.value <= MaxAge(interval, gap, tick)
  {
    var before, last := times[..|times| - 1], times[|times| - 1];
    if before == [] {
    } else {
      assert GapsAtMost(before, gap) by {
        forall i | 0 <= i < |before| - 1
          ensures before[i] <= before[i + 1] <= before[i] + gap
        {
          assert times[i] <= times[i + 1] <= times[i] + gap;
        }
      }
      assert before[|before| - 1] <= times[|before| - 1 + 1] <= before[|before| - 1] + gap;
      AgeIsBounded(before, interval, gap, tick, last);
    }
  }

  /** A heartbeat is recorded again only when more than half an interval has passed, up to the stored precision. */
  lemma HeartbeatsAreSpaced(s: Status, now: int, interval: nat, tick: nat)
    requires tick > 0 && s.last.Some?
    ensures var s' := Beat(s, now, interval, tick);
            && s'.interval == interval && s'.last.Some?
            && (s'.last == s.last || s'.last.value - s.last.value > interval / 2 - tick + 1)
            && (tick == 1 && s'.last != s.last ==> s'.last.value == now > s.last.value + interval / 2)
  {
  }

  /** The konnector has reconciled at these times, with gaps of at most `gap`, also up to `now`; the clock of the
      backend differs from the konnector's by at most the skew. */
  ghost predicate Observed(times: seq<int>, gap: nat, skew: nat, now: int, backendNow: int) {
    && times != [] && GapsAtMost(times, gap) && times[|times| - 1] <= now <= times[|times| - 1] + gap
    && now - skew <= backendNow <= now + skew
  }

  /** The heartbeat bound across the components: a konnector that reconciles often enough is never reported as timed
      out, at any time between its reconciles and however the clocks differ within the skew; ten seconds after the
      heartbeat it is healthy. */
  lemma {:induction false} NeverTimesOut(times: seq<int>, interval: nat, gap: nat, skew: nat, tick: nat, now: int,
                                         backendNow: int, second: nat)
    requires Observed(times, gap, skew, now, backendNow) && tick > 0
    requires MaxAge(interval, gap, tick) + skew <= 2 * interval
    ensures var s := StatusAfter(times, interval, tick);
            && Judge(s, backendNow, second) != HeartbeatTimeout
            && (interval > 0 ==>
                  Judge(s, backendNow, second) ==
                  if backendNow < s.last.value + 10 * second then HeartbeatTimeDrift else Healthy)
  {
    AgeIsBounded(times, interval, gap, tick, now);
  }

  /** The other verdicts: before the first reconcile the first heartbeat is pending, and without an interval that is
      reported, whatever the times. */
  lemma VerdictsWithoutBound(times: seq<int>, interval: nat, tick: nat, backendNow: int, second: nat)
    requires tick > 0
    ensures var verdict := Judge(StatusAfter(times, interval, tick), backendNow, second);
            && (verdict == FirstHeartbeatPending <==> times == [])
            && (verdict == HeartbeatIntervalMissing <==> times != [] && interval == 0)
  {
  }

  /** The bound is exact: some konnector with these gaps and this skew is reported exactly if it is exceeded. */
  lemma TimeoutIsExact(interval: nat, gap: nat, skew: nat, tick: nat, second: nat)
    requires tick > 0
    ensures (exists times, now, backendNow ::
               && Observed(times, gap, skew, now, backendNow)
               && Judge(StatusAfter(times, interval, tick), backendNow, second) == HeartbeatTimeout)
            <==> interval > 0 && MaxAge(interval, gap, tick) + skew > 2 * interval
  {
    if times, now, backendNow :| Observed(times, gap, skew, now, backendNow) &&
                                 Judge(StatusAfter(times, interval, tick), backendNow, second) == HeartbeatTimeout {
      AgeIsBounded(times, interval, gap, tick, now);
    }
    if interval > 0 && MaxAge(interval, gap, tick) + skew > 2 * interval {
      var times, now := SlowKonnector(interval, gap, tick);
      assert Observed(times, gap, skew, now, now + skew);
      assert Judge(StatusAfter(times, interval, tick), now + skew, second) == HeartbeatTimeout;
    }
  }

  /** A konnector whose heartbeat becomes as old as can be: it last reconciles when the heartbeat is just not due. */
  lemma SlowKonnector(interval: nat, gap: nat, tick: nat) returns (times: seq<int>, now: int)
    requires tick > 0
    ensures Observed(times, gap, 0, now, now)
    ensures var s := StatusAfter(times, interval, tick);
            s.interval == interval && s.last.Some? && now - s.last.value == MaxAge(interval, gap, tick)
  {
    if gap == 0 || interval / 2 < tick - 1 {
      times, now := [tick - 1], tick - 1 + gap;
      FirstBeat(tick - 1, interval, tick);
      assert Stored(tick - 1, tick) == 0;
    } else {
      var n := interval / 2 + 1;
      times, now := StepsUpTo(gap, interval / 2, n), interval / 2 + gap;
      StepsArrive(gap, interval / 2, n);
      StepsRecordOnce(gap, interval, n, tick);
    }
  }

  lemma FirstBeat(time: int, interval: nat, tick: nat)
    requires tick > 0
    ensures StatusAfter([time], interval, tick) == Status(Some(Stored(time, tick)), interval)
  {
    assert [time][..0] == [];
  }

  function Min(a: int, b: int): int {
    if a < b then a else b
  }

  /** 0, gap, 2 * gap, ... but not beyond the end */
  function StepsUpTo(gap: nat, end: nat, n: nat): seq<int> {
    seq(n, i requires 0 <= i => Min(i * gap, end))
  }

  lemma StepsArrive(gap: nat, end: nat, n: nat)
    requires gap > 0 && n == end + 1
    ensures var times := StepsUpTo(gap, end, n);
            GapsAtMost(times, gap) && times[n - 1] == end
  {
    var times := StepsUpTo(gap, end, n);
    forall i | 0 <= i < n - 1
      ensures times[i] <= times[i + 1] <= times[i] + gap
    {
      assert (i + 1) * gap == i * gap + gap;
    }
    assert end * gap >= end;
  }

  lemma {:induction false} StepsRecordOnce(gap: nat, interval: nat, n: nat, tick: nat)
    requires n > 0 && tick > 0
    ensures StatusAfter(StepsUpTo(gap, interval / 2, n), interval, tick) == Status(Some(0), interval)
  {
    var times := StepsUpTo(gap, interval / 2, n);
    assert times[..n - 1] == StepsUpTo(gap, interval / 2, n - 1);
    if n == 1 {
    } else {
      StepsRecordOnce(gap, interval, n - 1, tick);
    }
  }

  class ClusterBinding {
    var status: Status
    var healthy: Condition

    constructor ()
      ensures status == Status(None, 0)
    {
      status, healthy := Status(None, 0), FirstHeartbeatPending;
    }

    /** The konnector's part; a new time reaches the stored status at the precision of the API. */
    method EnsureHeartbeat(now: int, interval: nat, tick: nat)
      requires tick > 0
      modifies this`status
      ensures status == Beat(old(status), now, interval, tick)
    {
      status := status.(interval := interval);
      if status.last.None? || now > status.last.value + interval / 2 {
        status := status.(last := Some(Stored(now, tick)));
      }
    }

    /** The backend's part. */
    method EnsureConditions(now: int, second: nat)
      modifies this`healthy
      ensures healthy == Judge(status, now, second)
    {
      if status.last.None? {
        healthy := FirstHeartbeatPending;
      } else if status.interval == 0 {
        healthy := HeartbeatIntervalMissing;
      } else {
        var ago := now - status.last.value;
        if ago > status.interval * 2 {
          healthy := HeartbeatTimeout;
        } else if ago < 10 * second {
          healthy := HeartbeatTimeDrift;
        } else {
          healthy := Healthy;
        }
      }
    }

    /** Both parts together: the konnector reconciles at these times, then the backend judges. */
    method Live(times: seq<int>, interval: nat, tick: nat, backendNow: int, second: nat,
                ghost gap: nat, ghost skew: nat, ghost now: int)
      requires status == Status(None, 0) && tick > 0
      requires Observed(times, gap, skew, now, backendNow)
      modifies this
      ensures status.last.Some? && 0 <= now - status.last.value <= MaxAge(interval, gap, tick)
      ensures healthy == HeartbeatTimeout ==> MaxAge(interval, gap, tick) + skew > 2 * interval
      ensures interval > 0 ==> healthy in {HeartbeatTimeout, HeartbeatTimeDrift, Healthy}
    {
      var i := 0;
      while i < |times|
        invariant 0 <= i <= |times|
        invariant status == StatusAfter(times[..i], interval, tick)
      {
        assert times[..i + 1][..i] == times[..i];
        EnsureHeartbeat(times[i], interval, tick);
        i := i + 1;
      }
      assert times[..i] == times;
      AgeIsBounded(times, interval, gap, tick, now);
      EnsureConditions(backendNow, second);
    }
  }
}
