/**
 * Permit leases (agent_service/services/stream_queue_limiter.py and stream_chat_service.py):
 * how the renewal interval, the millisecond deadlines and the claims of all workers fit together.
 */
module Lease {

  import opened Admission
  import opened Text

  /** A non-negative time in seconds as whole milliseconds, rounded down. */
  function Ms(t: real): int {
    (t * 1000.0).Floor
  }

  function Interval(lease: real): real {
    var third := lease / 3.0;
    var capped := if third < 60.0 then third else 60.0;
    if capped < 1.0 then 1.0 else capped
  }

  /** The interval leaves room for two more renewals exactly for leases of three seconds and more. */
  lemma IntervalIsAThird(lease: real)
    ensures Interval(lease) <= lease / 3.0 <==> lease >= 3.0
  {}

  // ---- Rounding ----

  lemma LaterIsNotLess(a: real, b: real)
    requires a <= b
    ensures Ms(a) <= Ms(b)
  {
    assert a * 1000.0 <= b * 1000.0;
  }

  lemma AMillisecondSuffices(a: real, deadline: real)
    requires a + 0.001 <= deadline
    ensures Ms(a) < Ms(deadline)
  {
    LaterIsNotLess(a + 0.001, deadline);
    assert (a + 0.001) * 1000.0 == a * 1000.0 + 1.0;
    assert (a * 1000.0 + 1.0).Floor == (a * 1000.0).Floor + 1;
  }

  ghost predicate Whole(deadline: real) {
    (Ms(deadline) as real) == deadline * 1000.0
  }

  /** Every earlier moment is also earlier in whole milliseconds exactly when the deadline is a whole millisecond. */
  lemma EarlierStaysEarlier(deadline: real)
    requires deadline > 0.0
    ensures (forall a | 0.0 <= a < deadline :: Ms(a) < Ms(deadline)) <==> Whole(deadline)
  {
    if Whole(deadline) {
      forall a | 0.0 <= a < deadline
        ensures Ms(a) < Ms(deadline)
      {
        assert a * 1000.0 < deadline * 1000.0;
      }
    } else {
      var a := (Ms(deadline) as real) / 1000.0;
      assert a * 1000.0 == Ms(deadline) as real;
      assert 0.0 <= a < deadline;
      assert Ms(a) == Ms(deadline);
    }
  }

  // ---- Timed runs ----

  /** A step that the server applies at `at`, computed from a clock reading `stamp`. */
  datatype Timed = Timed(step: Step, stamp: real, at: real)

  ghost predicate Clocked(lease: real, e: Timed) {
    && 0.0 <= e.stamp <= e.at
    && (e.step.Claim? ==> e.step.nowMs == Ms(e.stamp) && e.step.leaseMs == Ms(e.stamp + lease))
    && (e.step.Renew? ==> e.step.leaseMs == Ms(e.stamp + lease))
  }

  function Steps(events: seq<Timed>): (steps: seq<Step>)
    ensures |steps| == |events|
  {
    if events == [] then [] else Steps(events[..|events| - 1]) + [events[|events| - 1].step]
  }

  function RunTimed(m: nat, r: Redis, events: seq<Timed>): Redis {
    Run(m, r, Steps(events))
  }

  lemma RunTimedSnoc(m: nat, r: Redis, events: seq<Timed>)
    requires events != []
    ensures RunTimed(m, r, events) == Next(m, RunTimed(m, r, events[..|events| - 1]), events[|events| - 1].step)
  {
    var steps := Steps(events);
    assert steps[..|steps| - 1] == Steps(events[..|events| - 1]);
  }

  /** The clock reading of the latest renewal of the permit, or of its grant. */
  function LastStamp(p: string, granted: real, events: seq<Timed>): real {
    if events == [] then granted
    else
      var e := events[|events| - 1];
      if e.step.Renew? && e.step.permit == p then e.stamp else LastStamp(p, granted, events[..|events| - 1])
  }

  ghost predicate Untouched(p: string, step: Step) {
    step != Release(p) && (step.Claim? ==> step.permit != p)
  }

  /** At each step the lease in force is, in whole milliseconds, still ahead. */
  ghost predicate Maintained(p: string, lease: real, granted: real, events: seq<Timed>) {
    events == []
    || (var n := |events| - 1;
        && Maintained(p, lease, granted, events[..n])
        && Clocked(lease, events[n]) && Untouched(p, events[n].step)
        && Ms(events[n].at) < Ms(LastStamp(p, granted, events[..n]) + lease))
  }

  /** Whether one claim evicts a permit. */
  lemma EvictionIsExact(m: nat, r: Redis, p: string, claim: Timed, stamp: real, lease: real)
    requires p in r.permits && r.permits[p] == Ms(stamp + lease)
    requires claim.step.Claim? && claim.step.permit != p && Clocked(lease, claim)
    ensures p !in Next(m, r, claim.step).permits <==> Ms(stamp + lease) <= Ms(claim.stamp)
  {}

  lemma LeaseAfterStep(m: nat, r: Redis, p: string, e: Timed, stamp: real, lease: real)
    requires p in r.permits && r.permits[p] == Ms(stamp + lease)
    requires Clocked(lease, e) && Untouched(p, e.step) && Ms(e.at) < Ms(stamp + lease)
    ensures var after := Next(m, r, e.step).permits;
            p in after && after[p] == Ms((if e.step.Renew? && e.step.permit == p then e.stamp else stamp) + lease)
  {
    LaterIsNotLess(e.stamp, e.at);
  }

  /** No claim of any worker evicts a permit whose renewals keep ahead. */
  lemma {:induction false} MaintainedPermitStays(m: nat, r: Redis, p: string, lease: real, granted: real, events: seq<Timed>)
    requires p in r.permits && r.permits[p] == Ms(granted + lease)
    requires Maintained(p, lease, granted, events)
    ensures var after := RunTimed(m, r, events);
            p in after.permits && after.permits[p] == Ms(LastStamp(p, granted, events) + lease)
  {
    if events != [] {
      var n := |events| - 1;
      MaintainedPermitStays(m, r, p, lease, granted, events[..n]);
      RunTimedSnoc(m, r, events);
      LeaseAfterStep(m, RunTimed(m, r, events[..n]), p, events[n], LastStamp(p, granted, events[..n]), lease);
    }
  }

  /** The streams that keep renewing are never more than the limit. */
  lemma MaintainedStreamsAreLimited(m: nat, r: Redis, lease: real, granted: map<string, real>, events: seq<Timed>)
    requires Sound(m, r)
    requires forall p | p in granted :: p in r.permits && r.permits[p] == Ms(granted[p] + lease) && Maintained(p, lease, granted[p], events)
    ensures |granted| <= m
    ensures granted.Keys <= RunTimed(m, r, events).permits.Keys && |RunTimed(m, r, events).permits| <= m
  {
    forall p | p in granted
      ensures p in RunTimed(m, r, events).permits
    {
      MaintainedPermitStays(m, r, p, lease, granted[p], events);
    }
    PermitsStayWithinLimit(m, r, Steps(events));
    SmallerSet(granted.Keys, r.permits.Keys);
  }

  // ---- Renewal loops that are late ----

  /** Nothing happens later than one interval and `delay` after the reading behind the lease in force. */
  ghost predicate OnTime(p: string, lease: real, delay: real, granted: real, events: seq<Timed>) {
    events == []
    || (var n := |events| - 1;
        && OnTime(p, lease, delay, granted, events[..n])
        && Clocked(lease, events[n]) && Untouched(p, events[n].step)
        && events[n].at <= LastStamp(p, granted, events[..n]) + Interval(lease) + delay)
  }

  /** With a millisecond to spare between interval, delay and lease, the lease in force stays ahead. */
  lemma {:induction false} OnTimeIsMaintained(p: string, lease: real, delay: real, granted: real, events: seq<Timed>)
    requires Interval(lease) + delay + 0.001 <= lease
    requires OnTime(p, lease, delay, granted, events)
    ensures Maintained(p, lease, granted, events)
  {
    if events != [] {
      var n := |events| - 1;
      OnTimeIsMaintained(p, lease, delay, granted, events[..n]);
      AMillisecondSuffices(events[n].at, LastStamp(p, granted, events[..n]) + lease);
    }
  }

  /** In this run from this state, a permit whose renewals are on time is still there at the end. */
  ghost predicate Survives(lease: real, delay: real, m: nat, r: Redis, p: string, granted: real, events: seq<Timed>) {
    0.0 <= granted && p in r.permits && r.permits[p] == Ms(granted + lease) && OnTime(p, lease, delay, granted, events)
    ==> p in RunTimed(m, r, events).permits
  }

  ghost predicate SafeDelay(lease: real, delay: real) {
    forall m, r, p, granted, events :: Survives(lease, delay, m, r, p, granted, events)
  }

  /** Renewals that are each delayed by at most `delay` keep the permit in every run exactly when a millisecond is to spare. */
  lemma SafeDelayExactly(lease: real, delay: real)
    requires lease > 0.0 && delay >= 0.0
    ensures SafeDelay(lease, delay) <==> Interval(lease) + delay + 0.001 <= lease
  {
    if Interval(lease) + delay + 0.001 <= lease {
      forall m, r, p, granted, events
        ensures Survives(lease, delay, m, r, p, granted, events)
      {
        if p in r.permits && r.permits[p] == Ms(granted + lease) && OnTime(p, lease, delay, granted, events) {
          OnTimeIsMaintained(p, lease, delay, granted, events);
          MaintainedPermitStays(m, r, p, lease, granted, events);
        }
      }
    } else {
      var k := Ms(Interval(lease) + delay) + 1;
      var a := (k as real) / 1000.0;
      var granted := a - Interval(lease) - delay;
      LastMoment(lease, delay, k, a, granted);
      ClaimEvicts(lease, delay, granted, a);
      assert !SafeDelay(lease, delay);
    }
  }

  /** A claim on a whole millisecond meets a deadline within the same one. */
  lemma LastMoment(lease: real, delay: real, k: int, a: real, granted: real)
    requires Interval(lease) + delay + 0.001 > lease
    requires k == Ms(Interval(lease) + delay) + 1 && a == (k as real) / 1000.0 && granted == a - Interval(lease) - delay
    ensures 0.0 <= granted && Ms(granted + lease) <= Ms(a)
  {
    var late := Interval(lease) + delay;
    assert late * 1000.0 < (Ms(late) + 1) as real;
    assert a * 1000.0 == k as real;
    assert (granted + lease) * 1000.0 == a * 1000.0 + (lease - late) * 1000.0;
    assert (granted + lease) * 1000.0 < (k + 1) as real;
  }

  /** A punctual permit that a single claim at `at` evicts. */
  lemma ClaimEvicts(lease: real, delay: real, granted: real, at: real)
    requires 0.0 <= granted && 0.0 <= at <= granted + Interval(lease) + delay
    requires Ms(granted + lease) <= Ms(at)
    ensures var r := EMPTY.(permits := map["p" := Ms(granted + lease)]);
            var claim := Timed(Claim("t", "q", Ms(at), Ms(at + lease)), at, at);
            OnTime("p", lease, delay, granted, [claim]) && !Survives(lease, delay, 1, r, "p", granted, [claim])
  {
    var r := EMPTY.(permits := map["p" := Ms(granted + lease)]);
    var claim := Timed(Claim("t", "q", Ms(at), Ms(at + lease)), at, at);
    var events := [claim];
    assert events[..0] == [];
    RunTimedSnoc(1, r, events);
    assert RunTimed(1, r, []) == r;
    assert OnTime("p", lease, delay, granted, []);
    EvictionIsExact(1, r, "p", claim, granted, lease);
  }

  /**
   * From three seconds on, every delay below two thirds of the lease is safe exactly when the lease is at least 180.003
   * seconds: only then is the interval, capped at a minute, shorter than a third of the lease by the millisecond that
   * rounding can cost.
   */
  lemma TwoThirdsAreSafeExactly(lease: real)
    requires lease >= 3.0
    ensures (forall delay | 0.0 <= delay < 2.0 * lease / 3.0 :: SafeDelay(lease, delay)) <==> lease >= 180.003
  {
    if lease >= 180.003 {
      forall delay | 0.0 <= delay < 2.0 * lease / 3.0
        ensures SafeDelay(lease, delay)
      {
        assert Interval(lease) == 60.0;
        SafeDelayExactly(lease, delay);
      }
    } else {
      var slack := lease - Interval(lease) - 0.001;
      assert slack < 2.0 * lease / 3.0;
      var delay := (slack + 2.0 * lease / 3.0) / 2.0;
      assert slack < delay < 2.0 * lease / 3.0 && 0.0 <= delay;
      SafeDelayExactly(lease, delay);
      assert !SafeDelay(lease, delay);
    }
  }

  // ---- Deadlines on whole milliseconds ----

  ghost predicate WholeDeadlines(p: string, lease: real, granted: real, events: seq<Timed>) {
    Whole(granted + lease) && forall e | e in events :: e.step.Renew? && e.step.permit == p ==> Whole(e.stamp + lease)
  }

  lemma {:induction false} LastStampIsWhole(p: string, lease: real, granted: real, events: seq<Timed>)
    requires WholeDeadlines(p, lease, granted, events)
    ensures Whole(LastStamp(p, granted, events) + lease)
  {
    if events != [] {
      assert events[|events| - 1] in events;
      LastStampIsWhole(p, lease, granted, events[..|events| - 1]);
    }
  }

  lemma {:induction false} OnTimeWithWholeDeadlines(p: string, lease: real, delay: real, granted: real, events: seq<Timed>)
    requires Interval(lease) + delay < lease && WholeDeadlines(p, lease, granted, events)
    requires OnTime(p, lease, delay, granted, events)
    ensures Maintained(p, lease, granted, events)
  {
    if events != [] {
      var n := |events| - 1;
      OnTimeWithWholeDeadlines(p, lease, delay, granted, events[..n]);
      LastStampIsWhole(p, lease, granted, events[..n]);
      var deadline := LastStamp(p, granted, events[..n]) + lease;
      assert 0.0 <= events[n].at < deadline;
      EarlierStaysEarlier(deadline);
    }
  }

  /** When all deadlines are whole milliseconds no slack is needed: then a delay is safe exactly when interval and delay are shorter than the lease. */
  lemma WholeDeadlinesExactly(lease: real, delay: real)
    requires lease > 0.0 && delay >= 0.0
    ensures (forall m, r, p, granted, events ::
               Survives(lease, delay, m, r, p, granted, events) || !WholeDeadlines(p, lease, granted, events))
            <==> Interval(lease) + delay < lease
  {
    if Interval(lease) + delay < lease {
      forall m, r, p, granted, events
        ensures Survives(lease, delay, m, r, p, granted, events) || !WholeDeadlines(p, lease, granted, events)
      {
        if WholeDeadlines(p, lease, granted, events) && p in r.permits && r.permits[p] == Ms(granted + lease)
           && OnTime(p, lease, delay, granted, events)
        {
          OnTimeWithWholeDeadlines(p, lease, delay, granted, events);
          MaintainedPermitStays(m, r, p, lease, granted, events);
        }
      }
    } else {
      var deadline := ((Ms(lease) + 1) as real) / 1000.0;
      var granted := deadline - lease;
      assert deadline * 1000.0 == (Ms(lease) + 1) as real;
      assert Whole(deadline) && 0.0 <= granted && granted + lease == deadline;
      var claim := Timed(Claim("t", "q", Ms(deadline), Ms(deadline + lease)), deadline, deadline);
      ClaimEvicts(lease, delay, granted, deadline);
      assert WholeDeadlines("p", lease, granted, [claim]);
    }
  }

  /** Otherwise a delay just under two thirds of the lease can lose the permit, within the last millisecond. */
  lemma LastMillisecondEvicts()
    ensures var r := EMPTY.(permits := map["p" := Ms(0.0009 + 3.0)]);
            var claim := Timed(Claim("t", "q", Ms(3.0005), Ms(6.0005)), 3.0005, 3.0005);
            && OnTime("p", 3.0, 1.9998, 0.0009, [claim]) && 1.9998 < 2.0 * 3.0 / 3.0
            && "p" !in RunTimed(1, r, [claim]).permits
  {
    var r := EMPTY.(permits := map["p" := Ms(0.0009 + 3.0)]);
    var claim := Timed(Claim("t", "q", Ms(3.0005), Ms(6.0005)), 3.0005, 3.0005);
    var events := [claim];
    assert events[..0] == [];
    assert Ms(0.0009 + 3.0) == 3000 == Ms(3.0005);
    RunTimedSnoc(1, r, events);
    assert RunTimed(1, r, []) == r;
    EvictionIsExact(1, r, "p", claim, 0.0009, 3.0);
    assert OnTime("p", 3.0, 1.9998, 0.0009, []);
  }
}
