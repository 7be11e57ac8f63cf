/**
 * Admission inside one process (agent_service/services/stream_queue_limiter.py without Redis):
 * a queue of waiters under one lock, and the permits that are out.
 */
module LocalAdmission {

  /** A waiting request; `id` stands for the identity of the waiter object, in order of arrival. */
  datatype Waiter = Waiter(id: nat, task: string, deadline: real)

  datatype Local = Local(waiting: seq<Waiter>, active: map<string, Waiter>, closing: bool)

  datatype Outcome = Waiting | Granted(permit: string) | Cancelled | TimedOut | Unavailable

  function Without(q: seq<Waiter>, task: string): seq<Waiter> {
    if q == [] then []
    else Without(q[..|q| - 1], task) + (if q[|q| - 1].task == task then [] else [q[|q| - 1]])
  }

  // ---- Steps, each under the lock ----

  function Removed(s: Local, task: string): Local {
    s.(waiting := Without(s.waiting, task))
  }

  predicate MayEnter(m: nat, s: Local, w: Waiter) {
    s.waiting != [] && s.waiting[0] == w && |s.active| < m
  }

  /** One turn of a waiter's loop. */
  function Turn(m: nat, s: Local, w: Waiter, cancelled: bool, now: real, permit: string): (Local, Outcome) {
    if s.closing then (Removed(s, w.task), Unavailable)
    else if cancelled then (Removed(s, w.task), Cancelled)
    else if MayEnter(m, s, w) then (s.(waiting := s.waiting[1..], active := s.active[permit := w]), Granted(permit))
    else if w.deadline - now <= 0.0 then (Removed(s, w.task), TimedOut)
    else (s, Waiting)
  }

  datatype Step =
    | Arrive(task: string, deadline: real)
    | Check(waiter: Waiter, cancelled: bool, now: real, permit: string)
    | CancelTask(task: string)
    | Release(permit: string)
    | Close

  datatype Event = Entered(waiter: Waiter, permit: string) | Left(permit: string)

  /** A process with everything that has arrived, and its grants and releases in order. */
  datatype Process = Process(local: Local, arrivals: seq<Waiter>, log: seq<Event>)

  const START := Process(Local([], map[], false), [], [])

  function Next(m: nat, p: Process, step: Step): Process {
    match step
    case Arrive(task, deadline) =>
      var w := Waiter(|p.arrivals|, task, deadline);
      p.(local := p.local.(waiting := p.local.waiting + [w]), arrivals := p.arrivals + [w])
    case Check(w, cancelled, now, permit) =>
      var (after, outcome) := Turn(m, p.local, w, cancelled, now, permit);
      p.(local := after, log := if outcome.Granted? then p.log + [Entered(w, permit)] else p.log)
    case CancelTask(task) => p.(local := Removed(p.local, task))
    case Release(permit) =>
      p.(local := p.local.(active := p.local.active - {permit}), log := p.log + [Left(permit)])
    case Close => p.(local := p.local.(closing := true))
  }

  function Run(m: nat, p: Process, steps: seq<Step>): Process {
    if steps == [] then p else Next(m, Run(m, p, steps[..|steps| - 1]), steps[|steps| - 1])
  }

  // ---- The limiter object ----

  class LocalLimiter {
    const maxConcurrent: nat
    var waiting: seq<Waiter>
    var active: map<string, Waiter>
    var closing: bool
    ghost var arrivals: seq<Waiter>
    ghost var log: seq<Event>
    var arrived: nat

    ghost predicate Valid()
      reads this
    {
      arrived == |arrivals|
    }

    ghost function State(): Process
      reads this
    {
      Process(Local(waiting, active, closing), arrivals, log)
    }

    constructor (maxConcurrent: nat)
      ensures Valid() && State() == START && this.maxConcurrent == maxConcurrent
    {
      this.maxConcurrent := maxConcurrent;
      waiting, active, closing, arrivals, log, arrived := [], map[], false, [], [], 0;
    }

    method Append(task: string, deadline: real) returns (w: Waiter)
      requires Valid()
      modifies this
      ensures Valid() && State() == Next(maxConcurrent, old(State()), Arrive(task, deadline))
      ensures w == Waiter(|old(arrivals)|, task, deadline)
    {
      w := Waiter(arrived, task, deadline);
      waiting := waiting + [w];
      arrived, arrivals := arrived + 1, arrivals + [w];
    }

    method RemoveWaiter(task: string)
      requires Valid()
      modifies this`waiting
      ensures State() == Next(maxConcurrent, old(State()), CancelTask(task))
    {
      var kept: seq<Waiter> := [];
      for i := 0 to |waiting|
        invariant kept == Without(waiting[..i], task)
      {
        assert waiting[..i + 1][..i] == waiting[..i];
        if waiting[i].task != task {
          kept := kept + [waiting[i]];
        }
      }
      assert waiting[..|waiting|] == waiting;
      waiting := kept;
    }

    method TakeTurn(w: Waiter, cancelled: bool, now: real, permit: string) returns (outcome: Outcome)
      requires Valid()
      modifies this
      ensures Valid() && State() == Next(maxConcurrent, old(State()), Check(w, cancelled, now, permit))
      ensures outcome == Turn(maxConcurrent, old(State()).local, w, cancelled, now, permit).1
    {
      if closing {
        RemoveWaiter(w.task);
        return Unavailable;
      }
      if cancelled {
        RemoveWaiter(w.task);
        return Cancelled;
      }
      if waiting != [] && waiting[0] == w {
        if |active| < maxConcurrent {
          waiting := waiting[1..];
          active := active[permit := w];
          log := log + [Entered(w, permit)];
          return Granted(permit);
        }
      }
      if w.deadline - now <= 0.0 {
        RemoveWaiter(w.task);
        return TimedOut;
      }
      return Waiting;
    }

    method ReleasePermit(permit: string)
      requires Valid()
      modifies this
      ensures Valid() && State() == Next(maxConcurrent, old(State()), Release(permit))
    {
      active := active - {permit};
      log := log + [Left(permit)];
    }

    method Shut()
      requires Valid()
      modifies this
      ensures Valid() && State() == Next(maxConcurrent, old(State()), Close)
    {
      closing := true;
    }

    method Perform(steps: seq<Step>)
      requires Valid()
      modifies this
      ensures Valid() && State() == Run(maxConcurrent, old(State()), steps)
    {
      for i := 0 to |steps|
        invariant Valid() && State() == Run(maxConcurrent, old(State()), steps[..i])
      {
        assert steps[..i + 1][..i] == steps[..i];
        match steps[i]
        case Arrive(task, deadline) => var _ := Append(task, deadline);
        case Check(w, cancelled, now, permit) => var _ := TakeTurn(w, cancelled, now, permit);
        case CancelTask(task) => RemoveWaiter(task);
        case Release(permit) => ReleasePermit(permit);
        case Close => Shut();
      }
      assert steps[..|steps|] == steps;
    }
  }

  // ---- What every run keeps ----

  lemma {:induction false} WithoutMembers(q: seq<Waiter>, task: string, w: Waiter)
    ensures w in Without(q, task) <==> w in q && w.task != task
  {
    if q != [] {
      WithoutMembers(q[..|q| - 1], task, w);
      assert q == q[..|q| - 1] + [q[|q| - 1]];
    }
  }

  ghost predicate Rising(q: seq<Waiter>) {
    forall i, j | 0 <= i < j < |q| :: q[i].id < q[j].id
  }

  lemma {:induction false} WithoutRises(q: seq<Waiter>, task: string)
    requires Rising(q)
    ensures Rising(Without(q, task))
  {
    if q != [] {
      var rest := Without(q[..|q| - 1], task);
      WithoutRises(q[..|q| - 1], task);
      forall i | 0 <= i < |rest|
        ensures rest[i].id < q[|q| - 1].id
      {
        assert rest[i] in rest;
        WithoutMembers(q[..|q| - 1], task, rest[i]);
      }
    }
  }

  function Granteds(log: seq<Event>): seq<Waiter> {
    if log == [] then []
    else Granteds(log[..|log| - 1]) + (if log[|log| - 1].Entered? then [log[|log| - 1].waiter] else [])
  }

  /** Each of `q` is the arrival that its identity says. */
  ghost predicate Arrived(q: seq<Waiter>, arrivals: seq<Waiter>) {
    forall w | w in q :: w.id < |arrivals| && arrivals[w.id] == w
  }

  /**
   * At most `m` permits are out. Those granted so far, followed by those still waiting, are arrivals in the
   * order in which they arrived.
   */
  ghost predicate Fair(m: nat, p: Process) {
    && |p.local.active| <= m
    && Rising(Granteds(p.log) + p.local.waiting)
    && Arrived(Granteds(p.log) + p.local.waiting, p.arrivals)
  }

  lemma RisingParts(a: seq<Waiter>, b: seq<Waiter>)
    ensures Rising(a + b) <==> Rising(a) && Rising(b) && forall v, w | v in a && w in b :: v.id < w.id
  {
    var q := a + b;
    if Rising(q) {
      forall i, j | 0 <= i < j < |a|
        ensures a[i].id < a[j].id
      {
        assert q[i].id < q[j].id;
      }
      forall i, j | 0 <= i < j < |b|
        ensures b[i].id < b[j].id
      {
        assert q[|a| + i].id < q[|a| + j].id;
      }
      forall v, w | v in a && w in b
        ensures v.id < w.id
      {
        var i :| 0 <= i < |a| && a[i] == v;
        var j :| 0 <= j < |b| && b[j] == w;
        assert q[i].id < q[|a| + j].id;
      }
    }
    if Rising(a) && Rising(b) && forall v, w | v in a && w in b :: v.id < w.id {
      forall i, j | 0 <= i < j < |q|
        ensures q[i].id < q[j].id
      {
        if i < |a| <= j {
          assert a[i] in a && b[j - |a|] in b;
        }
      }
    }
  }

  lemma RemovalIsFair(m: nat, p: Process, task: string)
    requires Fair(m, p)
    ensures Fair(m, p.(local := Removed(p.local, task)))
  {
    var granted, q := Granteds(p.log), p.local.waiting;
    RisingParts(granted, q);
    WithoutRises(q, task);
    forall w
      ensures w in Without(q, task) ==> w in q
    {
      WithoutMembers(q, task, w);
    }
    RisingParts(granted, Without(q, task));
    assert Arrived(granted + Without(q, task), p.arrivals) by {
      forall w | w in granted + Without(q, task)
        ensures w in granted + q
      {}
    }
  }

  lemma GrantIsFair(m: nat, p: Process, w: Waiter, now: real, permit: string)
    requires Fair(m, p) && MayEnter(m, p.local, w) && !p.local.closing
    ensures Fair(m, Next(m, p, Check(w, false, now, permit)))
  {
    var after := Next(m, p, Check(w, false, now, permit));
    assert after.log[..|p.log|] == p.log;
    assert p.local.active[permit := w].Keys == p.local.active.Keys + {permit};
    assert Granteds(p.log) + [w] + p.local.waiting[1..] == Granteds(p.log) + p.local.waiting;
  }

  lemma ArrivalIsFair(m: nat, p: Process, task: string, deadline: real)
    requires Fair(m, p)
    ensures Fair(m, Next(m, p, Arrive(task, deadline)))
  {
    var w := Waiter(|p.arrivals|, task, deadline);
    var q := Granteds(p.log) + p.local.waiting;
    assert Granteds(p.log) + (p.local.waiting + [w]) == q + [w];
    RisingParts(q, [w]);
  }

  lemma ReleaseIsFair(m: nat, p: Process, permit: string)
    requires Fair(m, p)
    ensures Fair(m, Next(m, p, Release(permit)))
  {
    var left := p.local.active - {permit};
    assert p.local.active.Keys == left.Keys + (p.local.active.Keys * {permit});
    assert (p.log + [Left(permit)])[..|p.log|] == p.log;
    assert Granteds(p.log) + [] == Granteds(p.log);
  }

  lemma NextIsFair(m: nat, p: Process, step: Step)
    requires Fair(m, p)
    ensures Fair(m, Next(m, p, step))
  {
    match step
    case Arrive(task, deadline) => ArrivalIsFair(m, p, task, deadline);
    case Check(w, cancelled, now, permit) =>
      if !p.local.closing && !cancelled && MayEnter(m, p.local, w) {
        GrantIsFair(m, p, w, now, permit);
      } else {
        RemovalIsFair(m, p, w.task);
      }
    case CancelTask(task) => RemovalIsFair(m, p, task);
    case Release(permit) => ReleaseIsFair(m, p, permit);
    case Close =>
  }

  /** In every run, whatever mix of cancellations, timeouts and closing, admission is fair and bounded. */
  lemma {:induction false} EveryRunIsFair(m: nat, p: Process, steps: seq<Step>)
    requires Fair(m, p)
    ensures Fair(m, START) && Fair(m, Run(m, p, steps))
  {
    if steps != [] {
      EveryRunIsFair(m, p, steps[..|steps| - 1]);
      NextIsFair(m, Run(m, p, steps[..|steps| - 1]), steps[|steps| - 1]);
    }
  }

  /** Read as a subsequence: the k-th grant is the arrival at a position that grows with k. */
  lemma GrantsFollowArrivals(m: nat, steps: seq<Step>, i: nat, j: nat)
    requires i < j < |Granteds(Run(m, START, steps).log)|
    ensures var p := Run(m, START, steps);
            var g := Granteds(p.log);
            && g[i].id < g[j].id < |p.arrivals|
            && p.arrivals[g[i].id] == g[i] && p.arrivals[g[j].id] == g[j]
  {
    EveryRunIsFair(m, START, steps);
    var p := Run(m, START, steps);
    var g := Granteds(p.log);
    var all := g + p.local.waiting;
    assert all[i] == g[i] && all[j] == g[j] && all[i] in all && all[j] in all;
  }

  // ---- Permits are out from grant to release ----

  ghost predicate Holds(log: seq<Event>, permit: string, w: Waiter) {
    exists i :: EnteredAt(log, permit, w, i) && NotLeftAfter(log, permit, i)
  }

  ghost predicate EnteredAt(log: seq<Event>, permit: string, w: Waiter, i: int) {
    0 <= i < |log| && log[i] == Entered(w, permit)
  }

  ghost predicate NotLeftAfter(log: seq<Event>, permit: string, i: int) {
    forall j | i < j < |log| :: j >= 0 ==> log[j] != Left(permit)
  }

  /** Permit identifiers are not reused. */
  ghost predicate FreshPermits(log: seq<Event>) {
    forall i, j | 0 <= i < j < |log| && log[i].Entered? && log[j].Entered? :: log[i].permit != log[j].permit
  }

  lemma HoldsSnoc(log: seq<Event>, e: Event, permit: string, w: Waiter)
    requires FreshPermits(log + [e])
    ensures Holds(log + [e], permit, w) <==> e == Entered(w, permit) || (e != Left(permit) && Holds(log, permit, w))
    ensures Holds(log, permit, w) && e.Entered? ==> e.permit != permit
  {
    var more := log + [e];
    if Holds(more, permit, w) {
      var i :| EnteredAt(more, permit, w, i) && NotLeftAfter(more, permit, i);
      if i < |log| {
        assert more[|log|] == e;
        assert EnteredAt(log, permit, w, i) && NotLeftAfter(log, permit, i) by {
          assert forall j | i < j < |log| :: more[j] == log[j];
        }
      }
    }
    if e == Entered(w, permit) {
      assert EnteredAt(more, permit, w, |log|) && NotLeftAfter(more, permit, |log|);
    }
    if Holds(log, permit, w) {
      var i :| EnteredAt(log, permit, w, i) && NotLeftAfter(log, permit, i);
      assert more[i] == log[i] && more[|log|] == e;
      if e != Left(permit) {
        assert EnteredAt(more, permit, w, i) && NotLeftAfter(more, permit, i);
      }
    }
  }

  /** A permit is active, for the request it was granted to, exactly when it was granted and not released since. */
  lemma {:induction false} ActiveFromGrantToRelease(m: nat, steps: seq<Step>, permit: string, w: Waiter)
    requires FreshPermits(Run(m, START, steps).log)
    ensures var p := Run(m, START, steps);
            (permit in p.local.active && p.local.active[permit] == w) <==> Holds(p.log, permit, w)
  {
    if steps != [] {
      var before, step := Run(m, START, steps[..|steps| - 1]), steps[|steps| - 1];
      var after := Next(m, before, step);
      LogGrows(m, before, step);
      assert FreshPermits(before.log) by {
        assert forall i | 0 <= i < |before.log| :: before.log[i] == after.log[i];
      }
      ActiveFromGrantToRelease(m, steps[..|steps| - 1], permit, w);
      if after.log != before.log {
        HoldsSnoc(before.log, after.log[|before.log|], permit, w);
      }
    }
  }

  lemma LogGrows(m: nat, p: Process, step: Step)
    ensures var after := Next(m, p, step).log;
            after == p.log || (|after| == |p.log| + 1 && after == p.log + [after[|p.log|]])
  {}

  // ---- A waiter that no longer takes its turns ----

  predicate IsHead(p: Process, w: Waiter) {
    p.local.waiting != [] && p.local.waiting[0] == w
  }

  /** The step removes every waiter of this task: a cancellation, or a turn of such a waiter that ends without a grant. */
  predicate Removes(m: nat, p: Process, step: Step, task: string) {
    match step
    case CancelTask(t) => t == task
    case Check(v, cancelled, now, permit) =>
      v.task == task && var outcome := Turn(m, p.local, v, cancelled, now, permit).1; outcome != Waiting && !outcome.Granted?
    case _ => false
  }

  predicate NeverRemoved(m: nat, p: Process, steps: seq<Step>, task: string) {
    steps == []
    || (NeverRemoved(m, p, steps[..|steps| - 1], task) && !Removes(m, Run(m, p, steps[..|steps| - 1]), steps[|steps| - 1], task))
  }

  /** The waiter takes no turn any more. */
  ghost predicate Abandoned(steps: seq<Step>, w: Waiter) {
    forall s | s in steps :: s.Check? ==> s.waiter != w
  }

  lemma AbandonedStep(m: nat, p: Process, w: Waiter, step: Step)
    requires w.id < |p.arrivals| && (step.Check? ==> step.waiter != w)
    ensures var after := Next(m, p, step);
            && |p.arrivals| <= |after.arrivals|
            && (IsHead(p, w) ==> (IsHead(after, w) <==> !Removes(m, p, step, w.task)) && Granteds(after.log) == Granteds(p.log))
            && (IsHead(p, w) && Removes(m, p, step, w.task) ==> w !in after.local.waiting)
            && (w !in p.local.waiting ==> w !in after.local.waiting)
  {
    if step.Check? {
      AbandonedCheck(m, p, w, step);
    } else if step.CancelTask? {
      RemovalAndHead(p.local.waiting, step.task, w);
    } else {
      AbandonedOther(m, p, w, step);
    }
  }

  lemma AbandonedCheck(m: nat, p: Process, w: Waiter, step: Step)
    requires step.Check? && step.waiter != w
    ensures var after := Next(m, p, step);
            && |p.arrivals| <= |after.arrivals|
            && (IsHead(p, w) ==> (IsHead(after, w) <==> !Removes(m, p, step, w.task)) && Granteds(after.log) == Granteds(p.log))
            && (IsHead(p, w) && Removes(m, p, step, w.task) ==> w !in after.local.waiting)
            && (w !in p.local.waiting ==> w !in after.local.waiting)
  {
    RemovalAndHead(p.local.waiting, step.waiter.task, w);
  }

  lemma AbandonedOther(m: nat, p: Process, w: Waiter, step: Step)
    requires !step.Check? && !step.CancelTask? && w.id < |p.arrivals|
    ensures var after := Next(m, p, step);
            && |p.arrivals| <= |after.arrivals|
            && (IsHead(p, w) ==> (IsHead(after, w) <==> !Removes(m, p, step, w.task)) && Granteds(after.log) == Granteds(p.log))
            && (IsHead(p, w) && Removes(m, p, step, w.task) ==> w !in after.local.waiting)
            && (w !in p.local.waiting ==> w !in after.local.waiting)
  {
    if step.Release? {
      assert (p.log + [Left(step.permit)])[..|p.log|] == p.log;
    }
  }

  lemma RemovalAndHead(q: seq<Waiter>, task: string, w: Waiter)
    ensures w in Without(q, task) <==> w in q && w.task != task
    ensures q != [] && q[0] == w && w.task != task ==> Without(q, task) != [] && Without(q, task)[0] == w
  {
    WithoutMembers(q, task, w);
    if q != [] && q[0].task != task {
      HeadStays(q, task);
    }
  }

  /**
   * When the task of the waiter at the head is cancelled from outside during its wait, the waiter stays at the head exactly
   * as long as no step removes its task id; and as long as it stays nobody is granted, however many permits are free.
   */
  lemma {:induction false} AbandonedHeadBlocks(m: nat, p: Process, w: Waiter, steps: seq<Step>)
    requires IsHead(p, w) && w.id < |p.arrivals| && Abandoned(steps, w)
    ensures var after := Run(m, p, steps);
            && (IsHead(after, w) <==> NeverRemoved(m, p, steps, w.task))
            && (IsHead(after, w) ==> Granteds(after.log) == Granteds(p.log))
            && (!IsHead(after, w) ==> w !in after.local.waiting)
            && w.id < |after.arrivals|
  {
    if steps != [] {
      var init, step := steps[..|steps| - 1], steps[|steps| - 1];
      assert step in steps;
      assert Abandoned(init, w);
      AbandonedHeadBlocks(m, p, w, init);
      AbandonedStep(m, Run(m, p, init), w, step);
    }
  }

  /** Once its task id is removed the queue goes on: with a free permit the new head is granted at its next turn. */
  lemma RemovalUnblocks(m: nat, p: Process, w: Waiter, v: Waiter, now: real, permit: string)
    requires IsHead(p, w) && w.id < |p.arrivals| && !p.local.closing && |p.local.active| < m
    ensures var after := Next(m, p, CancelTask(w.task));
            && w !in after.local.waiting
            && (IsHead(after, v) ==> Turn(m, after.local, v, false, now, permit).1 == Granted(permit))
  {
    WithoutMembers(p.local.waiting, w.task, w);
  }

  /** A second waiter is refused although the only permit is free, until the abandoned first one is removed. */
  lemma AbandonedHeadBlocksSecond()
    ensures var p := Run(1, START, [Arrive("a", 10.0), Arrive("b", 20.0)]);
            var b := Waiter(1, "b", 20.0);
            && IsHead(p, Waiter(0, "a", 10.0)) && p.local.active == map[]
            && Turn(1, p.local, b, false, 15.0, "p").1 == Waiting
            && Turn(1, Removed(p.local, "a"), b, false, 15.0, "p").1 == Granted("p")
  {
    var steps := [Arrive("a", 10.0), Arrive("b", 20.0)];
    assert steps[..1] == [Arrive("a", 10.0)] && steps[..1][..0] == [];
    var a, b := Waiter(0, "a", 10.0), Waiter(1, "b", 20.0);
    assert Run(1, START, steps[..1]).local.waiting == [a];
    var q := Run(1, START, steps).local.waiting;
    assert q == [a, b] && q[..1] == [a] && q[..1][..0] == [];
    assert Without(q[..1], "a") == [];
  }

  lemma {:induction false} HeadStays(q: seq<Waiter>, task: string)
    requires q != [] && q[0].task != task
    ensures Without(q, task) != [] && Without(q, task)[0] == q[0]
  {
    if |q| > 1 {
      HeadStays(q[..|q| - 1], task);
    } else {
      assert Without(q[..0], task) == [];
    }
  }

  // ---- One request ----

  /** What a waiter sees at one turn, and what others do until its next. */
  datatype Moment = Moment(cancelled: bool, now: real, permit: string, others: seq<Step>)

  /**
   * A request under local admission. It leaves with a permit or with no waiter under its task id,
   * unless it is cancelled from outside during a wait.
   */
  method AcquireLocal(limiter: LocalLimiter, task: string, deadline: real, moments: seq<Moment>) returns (outcome: Outcome)
    requires limiter.Valid() && Fair(limiter.maxConcurrent, limiter.State())
    modifies limiter
    ensures limiter.Valid() && Fair(limiter.maxConcurrent, limiter.State())
    ensures outcome.Granted? ==>
              && outcome.permit in limiter.active
              && limiter.active[outcome.permit] == Waiter(|old(limiter.arrivals)|, task, deadline)
    ensures !outcome.Granted? && outcome != Waiting ==> forall w | w in limiter.waiting :: w.task != task
    ensures outcome == TimedOut ==> exists k :: 0 <= k < |moments| && moments[k].now >= deadline
    ensures outcome == Cancelled ==> exists k :: 0 <= k < |moments| && moments[k].cancelled
  {
    NextIsFair(limiter.maxConcurrent, limiter.State(), Arrive(task, deadline));
    var waiter := limiter.Append(task, deadline);
    for i := 0 to |moments|
      invariant limiter.Valid() && Fair(limiter.maxConcurrent, limiter.State())
    {
      var moment := moments[i];
      ghost var before := limiter.State();
      NextIsFair(limiter.maxConcurrent, before, Check(waiter, moment.cancelled, moment.now, moment.permit));
      outcome := limiter.TakeTurn(waiter, moment.cancelled, moment.now, moment.permit);
      if outcome != Waiting {
        NobodyLeft(before.local.waiting, task);
        return outcome;
      }
      EveryRunIsFair(limiter.maxConcurrent, limiter.State(), moment.others);
      limiter.Perform(moment.others);
    }
    return Waiting;
  }

  lemma NobodyLeft(q: seq<Waiter>, task: string)
    ensures forall w | w in Without(q, task) :: w.task != task
  {
    forall w | w in Without(q, task)
      ensures w.task != task
    {
      WithoutMembers(q, task, w);
    }
  }
}
