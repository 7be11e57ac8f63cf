/** The model circuit breaker (agent_service/infra_ai/health_store.py). */
module HealthStore {

  import opened Text

  datatype State = Closed | Open | HalfOpen

  datatype Health = Health(state: State, failures: int, openUntil: real, probes: int)

  const FRESH := Health(Closed, 0, 0.0, 0)

  datatype Limits = Limits(threshold: int, openSeconds: real, maxProbes: int)

  // ---- One model ----

  function Opened(l: Limits, h: Health, now: real): Health {
    h.(state := Open, openUntil := now + l.openSeconds, probes := 0)
  }

  predicate Unavailable(l: Limits, h: Health, now: real) {
    if h.state == Open then h.openUntil > now else h.state == HalfOpen && h.probes >= l.maxProbes
  }

  /** The entry after an admission request, and whether the call is admitted. */
  function Admit(l: Limits, h: Health, now: real): (Health, bool) {
    if h.state == Open && h.openUntil > now then (h, false)
    else
      var g := if h.state == Open then h.(state := HalfOpen, probes := 0) else h;
      if g.state == HalfOpen then
        if g.probes >= l.maxProbes then (g, false) else (g.(probes := g.probes + 1), true)
      else (g, true)
  }

  function Fail(l: Limits, h: Health, now: real): Health {
    if h.state == HalfOpen then Opened(l, h, now)
    else
      var g := h.(failures := h.failures + 1);
      if g.failures >= l.threshold then Opened(l, g, now) else g
  }

  /** What the breaker keeps true of an entry. */
  ghost predicate Sound(l: Limits, h: Health) {
    && 0 <= h.failures
    && (h.state == Closed <==> h.failures < l.threshold)
    && (h.state == HalfOpen ==> 0 <= h.probes <= l.maxProbes)
    && (h.state != HalfOpen ==> h.probes == 0)
  }

  /** The breaker's invariant starts and stays true exactly for a positive threshold and a limit that is not negative. */
  lemma SoundnessIsKept(l: Limits, h: Health, now: real)
    requires l.threshold >= 1 && l.maxProbes >= 0 && Sound(l, h)
    ensures Sound(l, FRESH) && Sound(l, Admit(l, h, now).0) && Sound(l, Fail(l, h, now))
  {}

  lemma SoundnessNeedsItsLimits(l: Limits)
    ensures Sound(l, FRESH) <==> l.threshold >= 1
    ensures l.threshold >= 1 ==>
              ((forall h, now {:trigger Admit(l, h, now)} :: Sound(l, h) ==> Sound(l, Admit(l, h, now).0)) <==> l.maxProbes >= 0)
  {
    if l.threshold >= 1 && l.maxProbes < 0 {
      var h := Health(Open, l.threshold, 0.0, 0);
      assert Sound(l, h) && !Sound(l, Admit(l, h, 0.0).0);
    }
    if l.threshold >= 1 && l.maxProbes >= 0 {
      forall h: Health, now: real | Sound(l, h)
        ensures Sound(l, Admit(l, h, now).0)
      {
        SoundnessIsKept(l, h, now);
      }
    }
  }

  /** The check without side effect predicts admission for every entry exactly when at least one probe is allowed. */
  lemma AdmissionIsPredicted(l: Limits)
    ensures (forall h, now {:trigger Admit(l, h, now)} :: Admit(l, h, now).1 == !Unavailable(l, h, now)) <==> l.maxProbes >= 1
  {
    var h := Health(Open, 0, 0.0, 0);
    if l.maxProbes < 1 {
      assert Admit(l, h, 0.0).1 != !Unavailable(l, h, 0.0);
    }
  }

  // ---- The store ----

  function Entry(m: map<string, Health>, id: string): Health {
    if id in m then m[id] else FRESH
  }

  datatype StoreOp = Allow(id: string, now: real) | Success(id: string) | Failure(id: string, now: real)

  function Apply(l: Limits, m: map<string, Health>, op: StoreOp): map<string, Health> {
    match op
    case Allow(id, now) => m[id := Admit(l, Entry(m, id), now).0]
    case Success(id) => m[id := FRESH]
    case Failure(id, now) => m[id := Fail(l, Entry(m, id), now)]
  }

  function ApplyAll(l: Limits, m: map<string, Health>, ops: seq<StoreOp>): map<string, Health> {
    if ops == [] then m else Apply(l, ApplyAll(l, m, ops[..|ops| - 1]), ops[|ops| - 1])
  }

  ghost predicate AllSound(l: Limits, m: map<string, Health>) {
    forall id | id in m :: Sound(l, m[id])
  }

  /** In every run of the store all entries satisfy the invariant. */
  lemma {:induction false} EveryRunIsSound(l: Limits, m: map<string, Health>, ops: seq<StoreOp>)
    requires l.threshold >= 1 && l.maxProbes >= 0 && AllSound(l, m)
    ensures AllSound(l, ApplyAll(l, m, ops))
  {
    if ops != [] {
      var before, op := ApplyAll(l, m, ops[..|ops| - 1]), ops[|ops| - 1];
      EveryRunIsSound(l, m, ops[..|ops| - 1]);
      SoundnessIsKept(l, Entry(before, op.id), if op.Success? then 0.0 else op.now);
    }
  }

  class ModelHealthStore {
    const limits: Limits
    var healthById: map<string, Health>

    ghost predicate Valid()
      reads this
    {
      AllSound(limits, healthById)
    }

    constructor (limits: Limits)
      ensures this.limits == limits && healthById == map[] && Valid()
    {
      this.limits := limits;
      healthById := map[];
    }

    method IsUnavailable(id: string, now: real) returns (r: bool)
      ensures r == Unavailable(limits, Entry(healthById, id), now)
    {
      if id !in healthById {
        return false;
      }
      var health := healthById[id];
      if health.state == Open {
        return health.openUntil > now;
      }
      return health.state == HalfOpen && health.probes >= limits.maxProbes;
    }

    method AllowCall(id: string, now: real) returns (allowed: bool)
      modifies this
      ensures healthById == Apply(limits, old(healthById), Allow(id, now))
      ensures allowed == Admit(limits, Entry(old(healthById), id), now).1
      ensures limits.threshold >= 1 && limits.maxProbes >= 0 && old(Valid()) ==> Valid()
      ensures limits.maxProbes >= 1 ==> allowed == !Unavailable(limits, Entry(old(healthById), id), now)
    {
      SoundnessIsKeptIf(limits, Entry(healthById, id), now);
      if id !in healthById {
        healthById := healthById[id := FRESH];
      }
      var health := healthById[id];
      if health.state == Open {
        if health.openUntil > now {
          return false;
        }
        health := health.(state := HalfOpen, probes := 0);
        healthById := healthById[id := health];
      }
      if health.state == HalfOpen {
        if health.probes >= limits.maxProbes {
          return false;
        }
        healthById := healthById[id := health.(probes := health.probes + 1)];
      }
      return true;
    }

    method RecordSuccess(id: string)
      modifies this
      ensures healthById == Apply(limits, old(healthById), Success(id))
      ensures limits.threshold >= 1 && old(Valid()) ==> Valid()
    {
      healthById := healthById[id := FRESH];
    }

    method RecordFailure(id: string, now: real)
      modifies this
      ensures healthById == Apply(limits, old(healthById), Failure(id, now))
      ensures limits.threshold >= 1 && limits.maxProbes >= 0 && old(Valid()) ==> Valid()
    {
      SoundnessIsKeptIf(limits, Entry(healthById, id), now);
      var health := if id in healthById then healthById[id] else FRESH;
      if health.state == HalfOpen {
        healthById := healthById[id := Opened(limits, health, now)];
        return;
      }
      health := health.(failures := health.failures + 1);
      if health.failures >= limits.threshold {
        health := Opened(limits, health, now);
      }
      healthById := healthById[id := health];
    }

    /** Calls made by other requests of the process. */
    method Perform(ops: seq<StoreOp>)
      modifies this
      ensures healthById == ApplyAll(limits, old(healthById), ops)
    {
      for i := 0 to |ops|
        invariant healthById == ApplyAll(limits, old(healthById), ops[..i])
      {
        assert ops[..i + 1][..i] == ops[..i];
        match ops[i]
        case Allow(id, now) => var _ := AllowCall(id, now);
        case Success(id) => RecordSuccess(id);
        case Failure(id, now) => RecordFailure(id, now);
      }
      assert ops[..|ops|] == ops;
    }
  }

  lemma SoundnessIsKeptIf(l: Limits, h: Health, now: real)
    ensures l.threshold >= 1 && l.maxProbes >= 0 && Sound(l, h) ==> Sound(l, Admit(l, h, now).0) && Sound(l, Fail(l, h, now))
    ensures l.maxProbes >= 1 ==> Admit(l, h, now).1 == !Unavailable(l, h, now)
  {}

  // ---- Whole runs of one model, with the calls in flight ----

  /** How a call was admitted: normally, or as a probe of the n-th half-open period. */
  datatype Ticket = Plain | Probe(period: nat)

  datatype Breaker = Breaker(health: Health, period: nat, calls: map<nat, Ticket>)

  /** A call asks for admission, an admitted call ends, or somebody reports without having asked. */
  datatype Event = Begin(call: nat) | End(call: nat, ok: bool) | Report(ok: bool)

  function Verdict(l: Limits, h: Health, ok: bool, now: real): Health {
    if ok then FRESH else Fail(l, h, now)
  }

  function Next(l: Limits, b: Breaker, e: Event, now: real): Breaker {
    match e
    case Begin(call) =>
      var (h, admitted) := Admit(l, b.health, now);
      var period := if b.health.state == Open && h.state == HalfOpen then b.period + 1 else b.period;
      if admitted && call !in b.calls
      then Breaker(h, period, b.calls[call := if h.state == HalfOpen then Probe(period) else Plain])
      else if call in b.calls then b
      else Breaker(h, period, b.calls)
    case End(call, ok) =>
      if call in b.calls then Breaker(Verdict(l, b.health, ok, now), b.period, b.calls - {call}) else b
    case Report(ok) => b.(health := Verdict(l, b.health, ok, now))
  }

  function Run(l: Limits, events: seq<(Event, real)>): Breaker {
    if events == [] then Breaker(FRESH, 0, map[])
    else
      var (e, now) := events[|events| - 1];
      Next(l, Run(l, events[..|events| - 1]), e, now)
  }

  /** The probes of the current half-open period that are still in flight. */
  ghost function InFlight(b: Breaker): set<nat> {
    set c | c in b.calls && b.calls[c] == Probe(b.period)
  }

  ghost predicate Counted(l: Limits, b: Breaker) {
    && Sound(l, b.health)
    && (forall c | c in b.calls && b.calls[c].Probe? :: b.calls[c].period <= b.period)
    && (b.health.state == HalfOpen ==> |InFlight(b)| == b.health.probes)
  }

  lemma NextIsCounted(l: Limits, b: Breaker, e: Event, now: real)
    requires l.threshold >= 1 && l.maxProbes >= 0 && Counted(l, b)
    ensures Counted(l, Next(l, b, e, now))
  {
    SoundnessIsKept(l, b.health, now);
    var after := Next(l, b, e, now);
    if e.Begin? && e.call !in b.calls {
      var (h, admitted) := Admit(l, b.health, now);
      if h.state == HalfOpen && admitted {
        if b.health.state == Open {
          assert InFlight(after) == {e.call};
        } else {
          assert InFlight(after) == InFlight(b) + {e.call};
        }
      } else if h.state == HalfOpen && b.health.state == Open {
        assert InFlight(after) == {};
      } else if h.state == HalfOpen {
        assert InFlight(after) == InFlight(b);
      }
    }
  }

  /** In every run and every state, the probes of the current period still in flight are within the limit; in a half-open state they are what the counter says. */
  lemma {:induction false} ProbesStayWithinLimit(l: Limits, events: seq<(Event, real)>)
    requires l.threshold >= 1 && l.maxProbes >= 0
    ensures var b := Run(l, events);
            && Counted(l, b) && |InFlight(b)| <= l.maxProbes
            && (b.health.state == HalfOpen ==> |InFlight(b)| == b.health.probes)
  {
    if events != [] {
      var (e, now) := events[|events| - 1];
      ProbesStayWithinLimit(l, events[..|events| - 1]);
      NextIsCounted(l, Run(l, events[..|events| - 1]), e, now);
      NextIsWithinLimit(l, Run(l, events[..|events| - 1]), e, now);
    } else {
      assert InFlight(Run(l, events)) == {};
    }
  }

  lemma NextIsWithinLimit(l: Limits, b: Breaker, e: Event, now: real)
    requires l.threshold >= 1 && l.maxProbes >= 0 && Counted(l, b) && |InFlight(b)| <= l.maxProbes
    ensures |InFlight(Next(l, b, e, now))| <= l.maxProbes
  {
    var after := Next(l, b, e, now);
    NextIsCounted(l, b, e, now);
    if after.health.state != HalfOpen {
      SmallerSet(InFlight(after), InFlight(b));
    }
  }

  // ---- All probes in flight, of whatever period ----

  ghost function AllProbes(b: Breaker): set<nat> {
    set c | c in b.calls && b.calls[c].Probe?
  }

  /** Probes in flight that were admitted in an earlier half-open period. */
  ghost function OldProbes(b: Breaker): set<nat> {
    set c | c in b.calls && b.calls[c].Probe? && b.calls[c].period < b.period
  }

  lemma ProbesByAge(l: Limits, b: Breaker)
    requires Counted(l, b)
    ensures |AllProbes(b)| == |InFlight(b)| + |OldProbes(b)|
  {
    assert AllProbes(b) == InFlight(b) + OldProbes(b);
  }

  lemma {:induction false} Bounded(s: set<nat>) returns (n: nat)
    ensures forall x | x in s :: x < n
  {
    if s == {} {
      n := 0;
    } else {
      var x :| x in s;
      var m := Bounded(s - {x});
      assert forall y | y in s :: y == x || y in s - {x};
      n := if m <= x then x + 1 else m;
    }
  }

  function RunFrom(l: Limits, b: Breaker, events: seq<(Event, real)>): Breaker {
    if events == [] then b
    else
      var (e, now) := events[|events| - 1];
      Next(l, RunFrom(l, b, events[..|events| - 1]), e, now)
  }

  lemma RunFromSnoc(l: Limits, b: Breaker, events: seq<(Event, real)>, e: Event, now: real)
    ensures RunFrom(l, b, events + [(e, now)]) == Next(l, RunFrom(l, b, events), e, now)
  {
    assert (events + [(e, now)])[..|events|] == events;
  }

  lemma {:induction false} RunFromIsCounted(l: Limits, b: Breaker, events: seq<(Event, real)>)
    requires l.threshold >= 1 && l.maxProbes >= 0 && Counted(l, b) && |InFlight(b)| <= l.maxProbes
    ensures Counted(l, RunFrom(l, b, events)) && |InFlight(RunFrom(l, b, events))| <= l.maxProbes
    ensures b.period <= RunFrom(l, b, events).period
    ensures RunFrom(l, b, events).period == b.period ==> OldProbes(RunFrom(l, b, events)) <= OldProbes(b)
  {
    if events != [] {
      var (e, now) := events[|events| - 1];
      RunFromIsCounted(l, b, events[..|events| - 1]);
      var before := RunFrom(l, b, events[..|events| - 1]);
      NextIsCounted(l, before, e, now);
      NextIsWithinLimit(l, before, e, now);
      NextAddsNoOldProbe(l, before, e, now);
    }
  }

  lemma NextAddsNoOldProbe(l: Limits, b: Breaker, e: Event, now: real)
    ensures b.period <= Next(l, b, e, now).period
    ensures Next(l, b, e, now).period == b.period ==> OldProbes(Next(l, b, e, now)) <= OldProbes(b)
  {}

  /** One more probe of a half-open period that has room. */
  lemma OneMoreProbe(l: Limits, b: Breaker, call: nat, now: real)
    requires Counted(l, b) && b.health.state == HalfOpen && b.health.probes < l.maxProbes && call !in b.calls
    ensures var after := Next(l, b, Begin(call), now);
            && after.health == b.health.(probes := b.health.probes + 1) && after.period == b.period
            && Counted(l, after) && OldProbes(after) == OldProbes(b)
  {
    var after := Next(l, b, Begin(call), now);
    assert InFlight(after) == InFlight(b) + {call};
  }

  /** A half-open period can be filled up. */
  lemma {:induction false} FillPeriod(l: Limits, b: Breaker, now: real) returns (more: seq<(Event, real)>)
    requires Counted(l, b) && b.health.state == HalfOpen && 0 <= l.maxProbes
    ensures var after := RunFrom(l, b, more);
            && after.health.state == HalfOpen && after.health.probes == l.maxProbes && after.period == b.period
            && Counted(l, after) && OldProbes(after) == OldProbes(b)
    decreases l.maxProbes - b.health.probes
  {
    if b.health.probes == l.maxProbes {
      more := [];
    } else {
      var call := Bounded(b.calls.Keys);
      OneMoreProbe(l, b, call, now);
      var next := Next(l, b, Begin(call), now);
      var rest := FillPeriod(l, next, now);
      more := [(Begin(call), now)] + rest;
      RunFromCons(l, b, Begin(call), now, rest);
    }
  }

  lemma {:induction false} RunFromCons(l: Limits, b: Breaker, e: Event, now: real, rest: seq<(Event, real)>)
    ensures RunFrom(l, b, [(e, now)] + rest) == RunFrom(l, Next(l, b, e, now), rest)
  {
    if rest == [] {
      assert [(e, now)] + rest == [] + [(e, now)];
      RunFromSnoc(l, b, [], e, now);
    } else {
      var n := |rest| - 1;
      RunFromCons(l, b, e, now, rest[..n]);
      assert ([(e, now)] + rest)[..n + 1] == [(e, now)] + rest[..n];
    }
  }

  ghost predicate StaysWithin(l: Limits, b: Breaker, more: seq<(Event, real)>) {
    RunFrom(l, b, more).period == b.period ==> |AllProbes(RunFrom(l, b, more))| <= l.maxProbes
  }

  /**
   * In a half-open period all probes in flight, of whatever period, stay within the limit whatever happens until the next
   * period, exactly when no probe of an earlier period is in flight.
   */
  lemma PeriodIsBoundedExactly(l: Limits, b: Breaker)
    requires l.threshold >= 1 && l.maxProbes >= 0 && Counted(l, b) && b.health.state == HalfOpen
    ensures (forall more :: StaysWithin(l, b, more)) <==> OldProbes(b) == {}
  {
    if OldProbes(b) == {} {
      forall more: seq<(Event, real)>
        ensures StaysWithin(l, b, more)
      {
        RunFromIsCounted(l, b, more);
        var after := RunFrom(l, b, more);
        ProbesByAge(l, after);
        if after.period == b.period {
          assert OldProbes(after) == {};
        }
      }
    } else {
      var more := FillPeriod(l, b, 0.0);
      ProbesByAge(l, RunFrom(l, b, more));
      assert !StaysWithin(l, b, more);
    }
  }

  /** The breaker after `k` failures in a row, still closed. */
  lemma {:induction false} FailuresAddUp(l: Limits, k: nat) returns (events: seq<(Event, real)>)
    requires k < l.threshold
    ensures Run(l, events) == Breaker(Health(Closed, k, 0.0, 0), 0, map[])
  {
    if k == 0 {
      events := [];
    } else {
      var before := FailuresAddUp(l, k - 1);
      events := before + [(Report(false), 0.0)];
      assert events[..|before|] == before;
    }
  }

  lemma {:induction false} RunContinues(l: Limits, a: seq<(Event, real)>, b: seq<(Event, real)>)
    ensures Run(l, a + b) == RunFrom(l, Run(l, a), b)
  {
    if b == [] {
      assert a + b == a;
    } else {
      var n := |b| - 1;
      RunContinues(l, a, b[..n]);
      assert (a + b)[..|a| + n] == a + b[..n];
    }
  }

  /** The limit bounds all probes in flight in every run exactly when it allows none. */
  lemma TotalIsBoundedExactly(l: Limits)
    requires l.threshold >= 1 && l.maxProbes >= 0
    ensures (forall events :: |AllProbes(Run(l, events))| <= l.maxProbes) <==> l.maxProbes == 0
  {
    if l.maxProbes == 0 {
      forall events: seq<(Event, real)>
        ensures |AllProbes(Run(l, events))| <= l.maxProbes
      {
        NoProbesAtAll(l, events);
      }
    } else {
      var events := TooManyProbes(l);
    }
  }

  lemma {:induction false} NoProbesAtAll(l: Limits, events: seq<(Event, real)>)
    requires l.threshold >= 1 && l.maxProbes == 0
    ensures AllProbes(Run(l, events)) == {}
  {
    if events != [] {
      NoProbesAtAll(l, events[..|events| - 1]);
      var b := Run(l, events[..|events| - 1]);
      ProbesStayWithinLimit(l, events[..|events| - 1]);
      assert AllProbes(Next(l, b, events[|events| - 1].0, events[|events| - 1].1)) <= AllProbes(b);
    }
  }

  /** Fill one period, let it fail, and admit one probe of the next. */
  lemma TooManyProbes(l: Limits) returns (events: seq<(Event, real)>)
    requires l.threshold >= 1 && l.maxProbes >= 1
    ensures |AllProbes(Run(l, events))| > l.maxProbes
  {
    var first, b := FirstPeriod(l);
    var more := FillPeriod(l, b, 0.0);
    var full := RunFrom(l, b, more);
    var call := Bounded(full.calls.Keys);
    var last := NextPeriod(l, full, call);
    events := first + (more + last);
    RunContinues(l, first, more + last);
    RunFromTwo(l, b, more, last);
    var after := RunFrom(l, full, last);
    assert InFlight(full) <= AllProbes(full);
    SmallerSet(InFlight(full), AllProbes(full));
    assert AllProbes(after) == AllProbes(full) + {call};
  }

  lemma {:induction false} RunFromTwo(l: Limits, b: Breaker, x: seq<(Event, real)>, y: seq<(Event, real)>)
    ensures RunFrom(l, b, x + y) == RunFrom(l, RunFrom(l, b, x), y)
  {
    if y == [] {
      assert x + y == x;
    } else {
      var n := |y| - 1;
      RunFromTwo(l, b, x, y[..n]);
      assert (x + y)[..|x| + n] == x + y[..n];
    }
  }

  lemma FirstPeriod(l: Limits) returns (events: seq<(Event, real)>, b: Breaker)
    requires l.threshold >= 1 && l.maxProbes >= 1
    ensures b == Run(l, events) && b.health.state == HalfOpen && Counted(l, b)
  {
    var before := FailuresAddUp(l, l.threshold - 1);
    var opening, probing := before + [(Report(false), 0.0)], before + [(Report(false), 0.0)] + [(Begin(0), l.openSeconds)];
    assert opening[..|before|] == before && probing[..|opening|] == opening;
    assert Run(l, opening) == Breaker(Health(Open, l.threshold, l.openSeconds, 0), 0, map[]);
    events, b := probing, Run(l, probing);
    ProbesStayWithinLimit(l, events);
  }

  lemma NextPeriod(l: Limits, b: Breaker, call: nat) returns (events: seq<(Event, real)>)
    requires l.maxProbes >= 1 && b.health.state == HalfOpen && call !in b.calls
    ensures RunFrom(l, b, events).calls == b.calls[call := Probe(b.period + 1)]
  {
    var failing := [(Report(false), 0.0)];
    events := failing + [(Begin(call), l.openSeconds)];
    RunFromSnoc(l, b, [], Report(false), 0.0);
    assert [] + failing == failing;
    RunFromSnoc(l, b, failing, Begin(call), l.openSeconds);
  }

  /** Probes of earlier periods are not counted: more probes than the limit can be in flight altogether. */
  lemma OldProbesAreForgotten()
    ensures var l := Limits(1, 1.0, 1);
            var events := [(Report(false), 0.0), (Begin(1), 1.0), (Report(false), 1.0), (Begin(2), 2.0)];
            var b := Run(l, events);
            b.health.probes == 1 && b.calls == map[1 := Probe(1), 2 := Probe(2)]
  {
    var l := Limits(1, 1.0, 1);
    var events := [(Report(false), 0.0), (Begin(1), 1.0), (Report(false), 1.0), (Begin(2), 2.0)];
    assert events[..3][..2] == events[..2] && events[..2][..1] == events[..1] && events[..1][..0] == events[..0] == [];
    assert Run(l, events[..0]) == Breaker(FRESH, 0, map[]);
    var h := Health(Open, 1, 1.0, 0);
    assert Run(l, events[..1]) == Breaker(h, 0, map[]);
    assert Run(l, events[..2]) == Breaker(Health(HalfOpen, 1, 1.0, 1), 1, map[1 := Probe(1)]);
    assert Run(l, events[..3]) == Breaker(Health(Open, 1, 2.0, 0), 1, map[1 := Probe(1)]);
    assert events[..4] == events;
  }

  // ---- Probes that never report ----

  ghost predicate OnlyBegins(events: seq<(Event, real)>) {
    forall e | e in events :: e.0.Begin?
  }

  /**
   * A half-open circuit admits a call, at whatever time, exactly while it has a free slot; when all slots are taken
   * nothing changes until somebody reports, so calls that never report block the model for good.
   */
  lemma {:induction false} FullPeriodBlocks(l: Limits, b: Breaker, events: seq<(Event, real)>)
    requires b.health.state == HalfOpen && OnlyBegins(events)
    ensures forall now :: Admit(l, b.health, now).1 <==> b.health.probes < l.maxProbes
    ensures b.health.probes >= l.maxProbes ==> RunFrom(l, b, events) == b
  {
    if events != [] {
      assert events[|events| - 1] in events;
      assert OnlyBegins(events[..|events| - 1]);
      FullPeriodBlocks(l, b, events[..|events| - 1]);
    }
  }

  // ---- An open circuit ----

  ghost predicate TimesFrom(events: seq<(Event, real)>, from: real) {
    && (forall i | 0 <= i < |events| :: from <= events[i].1)
    && (forall i, j | 0 <= i < j < |events| :: events[i].1 <= events[j].1)
  }

  ghost predicate NoSuccess(events: seq<(Event, real)>) {
    forall i | 0 <= i < |events| :: events[i].0.Begin? || !events[i].0.ok
  }

  /**
   * From the moment a circuit opens, and as time goes on, no call is admitted before the open period
   * is over, unless a success is recorded; failures reported meanwhile only prolong it.
   */
  lemma {:induction false} OpenCircuitBlocks(l: Limits, b: Breaker, events: seq<(Event, real)>, since: real)
    requires l.threshold >= 1 && Sound(l, b.health)
    requires b.health.state == Open && b.health.openUntil >= since + l.openSeconds
    requires TimesFrom(events, since) && NoSuccess(events)
    requires forall i | 0 <= i < |events| :: events[i].1 < since + l.openSeconds
    ensures var after := RunFrom(l, b, events);
            && after.health.state == Open && after.health.openUntil >= since + l.openSeconds
            && Sound(l, after.health) && after.calls.Keys <= b.calls.Keys
  {
    if events != [] {
      var n := |events| - 1;
      assert TimesFrom(events[..n], since) && NoSuccess(events[..n]);
      OpenCircuitBlocks(l, b, events[..n], since);
      assert events[n].1 >= since;
    }
  }
}
