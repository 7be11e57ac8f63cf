/** The registry of running streams of one process (agent_service/services/stream_task_manager.py). */
module TaskRegistry {

  import opened Text

  /** A handle is named by a number; `Registry.stopped` holds those on which cancel has been called. */
  datatype Info = Info(owner: Option<string>, cancelled: bool, handle: Option<nat>, expiresAt: Option<real>)

  datatype Registry = Registry(tasks: map<string, Info>, stopped: set<nat>)

  datatype Limits = Limits(ttl: real, maxTasks: nat)

  const EMPTY := Registry(map[], {})

  predicate Expired(info: Info, now: real) {
    info.expiresAt.Some? && info.expiresAt.value <= now
  }

  function Purged(s: Registry, now: real): Registry {
    s.(tasks := map id | id in s.tasks && !Expired(s.tasks[id], now) :: s.tasks[id])
  }

  predicate MayRegister(l: Limits, s: Registry, id: string, now: real) {
    id !in Purged(s, now).tasks && |Purged(s, now).tasks| < l.maxTasks
  }

  predicate IsCancelled(s: Registry, id: string) {
    id in s.tasks && s.tasks[id].cancelled
  }

  function Stop(s: Registry, handle: Option<nat>): set<nat> {
    if handle.Some? then s.stopped + {handle.value} else s.stopped
  }

  // ---- Steps between two waits ----

  datatype Step =
    | Insert(id: string, owner: Option<string>)
    | Withdraw(id: string)
    | Cancel(id: string)
    | Bind(id: string, handle: nat)
    | Finalize(id: string)
    | Look

  function Next(l: Limits, s: Registry, step: Step, now: real): Registry {
    match step
    case Insert(id, owner) =>
      var p := Purged(s, now);
      if MayRegister(l, s, id, now) then p.(tasks := p.tasks[id := Info(owner, false, None, None)]) else p
    case Withdraw(id) => s.(tasks := s.tasks - {id})
    case Cancel(id) =>
      var p := Purged(s, now);
      if id !in p.tasks || p.tasks[id].cancelled then p
      else Registry(p.tasks[id := p.tasks[id].(cancelled := true, expiresAt := Some(now + l.ttl))], Stop(p, p.tasks[id].handle))
    case Bind(id, handle) =>
      if id !in s.tasks then s
      else Registry(s.tasks[id := s.tasks[id].(handle := Some(handle))], if s.tasks[id].cancelled then s.stopped + {handle} else s.stopped)
    case Finalize(id) =>
      var p := Purged(s, now);
      if id !in p.tasks then p
      else if p.tasks[id].cancelled then p.(tasks := p.tasks[id := p.tasks[id].(handle := None, expiresAt := Some(now + l.ttl))])
      else p.(tasks := p.tasks - {id})
    case Look => Purged(s, now)
  }

  function Run(l: Limits, s: Registry, steps: seq<(Step, real)>): Registry {
    if steps == [] then s
    else
      var (step, now) := steps[|steps| - 1];
      Next(l, Run(l, s, steps[..|steps| - 1]), step, now)
  }

  // ---- The manager object ----

  /** What the shared backend answers while a task registers, and what else happens in this process meanwhile. */
  datatype Backend = Backend(ownerStored: bool, before: seq<(Step, real)>, marked: bool, after: seq<(Step, real)>, readAt: real)

  class StreamTaskManager {
    const limits: Limits
    var tasks: map<string, Info>
    var stopped: set<nat>

    ghost function State(): Registry
      reads this
    {
      Registry(tasks, stopped)
    }

    constructor (limits: Limits)
      ensures State() == EMPTY && this.limits == limits
    {
      this.limits := limits;
      tasks, stopped := map[], {};
    }

    method PurgeExpired(now: real)
      modifies this`tasks
      ensures State() == Purged(old(State()), now)
    {
      tasks := map id | id in tasks && !(tasks[id].expiresAt.Some? && tasks[id].expiresAt.value <= now) :: tasks[id];
    }

    /** The part of registration before its first wait. */
    method RegisterLocally(id: string, owner: Option<string>, now: real) returns (inserted: bool)
      modifies this
      ensures State() == Next(limits, old(State()), Insert(id, owner), now)
      ensures inserted == MayRegister(limits, old(State()), id, now)
    {
      PurgeExpired(now);
      if id in tasks || |tasks| >= limits.maxTasks {
        return false;
      }
      tasks := tasks[id := Info(owner, false, None, None)];
      return true;
    }

    method CancelLocally(id: string, now: real) returns (done: bool)
      modifies this
      ensures State() == Next(limits, old(State()), Cancel(id), now)
      ensures done == (id in Purged(old(State()), now).tasks && !IsCancelled(Purged(old(State()), now), id))
      ensures id in Purged(old(State()), now).tasks ==> IsCancelled(State(), id)
    {
      PurgeExpired(now);
      if id !in tasks || tasks[id].cancelled {
        return false;
      }
      var info := tasks[id].(cancelled := true, expiresAt := Some(now + limits.ttl));
      tasks := tasks[id := info];
      if info.handle.Some? {
        stopped := stopped + {info.handle.value};
      }
      return true;
    }

    method BindHandle(id: string, handle: nat) returns (running: bool)
      modifies this
      ensures forall now :: State() == Next(limits, old(State()), Bind(id, handle), now)
      ensures running == (id in old(tasks) && !old(tasks)[id].cancelled)
      ensures !running ==> id !in tasks || handle in stopped
    {
      if id !in tasks {
        return false;
      }
      tasks := tasks[id := tasks[id].(handle := Some(handle))];
      if tasks[id].cancelled {
        stopped := stopped + {handle};
        return false;
      }
      return true;
    }

    /** Local part; `cleared` says that the marker and the owner are deleted from the backend. */
    method FinalizeTask(id: string, now: real) returns (cleared: bool)
      modifies this
      ensures State() == Next(limits, old(State()), Finalize(id), now)
      ensures cleared == (id in Purged(old(State()), now).tasks && !IsCancelled(Purged(old(State()), now), id))
    {
      PurgeExpired(now);
      if id !in tasks {
        return false;
      }
      if tasks[id].cancelled {
        tasks := tasks[id := tasks[id].(handle := None, expiresAt := Some(now + limits.ttl))];
        return false;
      }
      tasks := tasks - {id};
      return true;
    }

    method Perform(steps: seq<(Step, real)>)
      modifies this
      ensures State() == Run(limits, old(State()), steps)
    {
      for i := 0 to |steps|
        invariant State() == Run(limits, old(State()), steps[..i])
      {
        assert steps[..i + 1][..i] == steps[..i];
        var (step, now) := steps[i];
        match step
        case Insert(id, owner) => var _ := RegisterLocally(id, owner, now);
        case Withdraw(id) => tasks := tasks - {id};
        case Cancel(id) => var _ := CancelLocally(id, now);
        case Bind(id, handle) => var _ := BindHandle(id, handle);
        case Finalize(id) => var _ := FinalizeTask(id, now);
        case Look => PurgeExpired(now);
      }
      assert steps[..|steps|] == steps;
    }

    /** A whole registration. Once it has succeeded after reading a marker, the entry is not left running. */
    method RegisterTask(id: string, owner: Option<string>, now: real, backend: Option<Backend>) returns (ok: bool)
      requires Kept(limits, State())
      modifies this
      ensures Kept(limits, State())
      ensures ok ==> MayRegister(limits, old(State()), id, now)
      ensures backend.None? ==> ok == MayRegister(limits, old(State()), id, now)
      ensures ok && backend.Some? && backend.value.marked && id in tasks ==> tasks[id].cancelled
      ensures !ok && MayRegister(limits, old(State()), id, now) ==> id !in tasks && backend.Some? && owner.Some?
    {
      NextIsKept(limits, State(), Insert(id, owner), now);
      var inserted := RegisterLocally(id, owner, now);
      if !inserted {
        return false;
      }
      if backend.Some? {
        var b := backend.value;
        if owner.Some? {
          EveryRunIsKept(limits, State(), b.before);
          Perform(b.before);
          if !b.ownerStored {
            NextIsKept(limits, State(), Withdraw(id), now);
            tasks := tasks - {id};
            return false;
          }
        }
        EveryRunIsKept(limits, State(), b.after);
        Perform(b.after);
        if b.marked {
          NextIsKept(limits, State(), Cancel(id), b.readAt);
          var _ := CancelLocally(id, b.readAt);
        }
      }
      return true;
    }
  }

  // ---- What every run keeps ----

  ghost predicate InfoKept(info: Info, stopped: set<nat>) {
    && (info.expiresAt.Some? <==> info.cancelled)
    && (info.cancelled && info.handle.Some? ==> info.handle.value in stopped)
  }

  /** An entry expires exactly when it is cancelled, a cancelled entry's handle is stopped, and there is room for all. */
  ghost predicate Kept(l: Limits, s: Registry) {
    && |s.tasks| <= l.maxTasks
    && forall id | id in s.tasks :: InfoKept(s.tasks[id], s.stopped)
  }

  lemma FewerTasks(a: map<string, Info>, b: map<string, Info>)
    requires a.Keys <= b.Keys
    ensures |a| <= |b|
  {
    assert b.Keys == a.Keys + (b.Keys - a.Keys);
    assert |a.Keys| <= |b.Keys|;
  }

  lemma PurgedIsKept(l: Limits, s: Registry, now: real)
    requires Kept(l, s)
    ensures Kept(l, Purged(s, now))
  {
    FewerTasks(Purged(s, now).tasks, s.tasks);
  }

  lemma ReplacedIsKept(l: Limits, s: Registry, id: string, info: Info, stopped: set<nat>)
    requires Kept(l, s) && id in s.tasks && s.stopped <= stopped && InfoKept(info, stopped)
    ensures Kept(l, Registry(s.tasks[id := info], stopped))
  {
    FewerTasks(s.tasks[id := info], s.tasks);
  }

  lemma InsertedIsKept(l: Limits, s: Registry, id: string, info: Info)
    requires Kept(l, s) && |s.tasks| < l.maxTasks && id !in s.tasks && InfoKept(info, s.stopped)
    ensures Kept(l, s.(tasks := s.tasks[id := info]))
  {
    assert s.tasks[id := info].Keys == s.tasks.Keys + {id};
    assert |s.tasks[id := info].Keys| == |s.tasks.Keys| + 1;
  }

  lemma DroppedIsKept(l: Limits, s: Registry, id: string)
    requires Kept(l, s)
    ensures Kept(l, s.(tasks := s.tasks - {id}))
  {
    FewerTasks(s.tasks - {id}, s.tasks);
  }

  lemma NextIsKept(l: Limits, s: Registry, step: Step, now: real)
    requires Kept(l, s)
    ensures Kept(l, Next(l, s, step, now))
  {
    PurgedIsKept(l, s, now);
    var p := Purged(s, now);
    match step
    case Insert(id, owner) =>
      if MayRegister(l, s, id, now) {
        InsertedIsKept(l, p, id, Info(owner, false, None, None));
      }
    case Withdraw(id) => DroppedIsKept(l, s, id);
    case Cancel(id) =>
      if id in p.tasks && !p.tasks[id].cancelled {
        ReplacedIsKept(l, p, id, p.tasks[id].(cancelled := true, expiresAt := Some(now + l.ttl)), Stop(p, p.tasks[id].handle));
      }
    case Bind(id, handle) =>
      if id in s.tasks {
        ReplacedIsKept(l, s, id, s.tasks[id].(handle := Some(handle)),
                       if s.tasks[id].cancelled then s.stopped + {handle} else s.stopped);
      }
    case Finalize(id) =>
      if id in p.tasks && p.tasks[id].cancelled {
        ReplacedIsKept(l, p, id, p.tasks[id].(handle := None, expiresAt := Some(now + l.ttl)), p.stopped);
      }
      DroppedIsKept(l, p, id);
    case Look =>
  }

  lemma {:induction false} EveryRunIsKept(l: Limits, s: Registry, steps: seq<(Step, real)>)
    requires Kept(l, s)
    ensures Kept(l, EMPTY) && Kept(l, Run(l, s, steps))
  {
    if steps != [] {
      EveryRunIsKept(l, s, steps[..|steps| - 1]);
      NextIsKept(l, Run(l, s, steps[..|steps| - 1]), steps[|steps| - 1].0, steps[|steps| - 1].1);
    }
  }

  // ---- Tombstones ----

  /** The task is cancelled and, if it expires at all, not before `until`. */
  predicate Tombstone(s: Registry, id: string, until: real) {
    IsCancelled(s, id) && s.tasks[id].expiresAt.Some? && s.tasks[id].expiresAt.value >= until
  }

  /** A step before `until` keeps a tombstone exactly when it is not the withdrawal of that very task. */
  lemma TombstoneStep(l: Limits, s: Registry, id: string, until: real, step: Step, now: real)
    requires Kept(l, s) && Tombstone(s, id, until) && now < until <= now + l.ttl
    ensures Tombstone(Next(l, s, step, now), id, until) <==> step != Withdraw(id)
    ensures !MayRegister(l, s, id, now)
  {}

  ghost predicate Times(steps: seq<(Step, real)>, from: real, until: real) {
    && (forall i | 0 <= i < |steps| :: from <= steps[i].1 < until)
    && (forall i, j | 0 <= i < j < |steps| :: steps[i].1 <= steps[j].1)
  }

  ghost predicate TombstoneThroughout(l: Limits, s: Registry, id: string, until: real, steps: seq<(Step, real)>) {
    forall k | 0 <= k <= |steps| :: Tombstone(Run(l, s, steps[..k]), id, until)
  }

  /**
   * From its cancellation at `since` and for the whole time to live, a task stays cancelled and its id cannot be
   * registered again, whatever else happens, exactly when no registration of that id is withdrawn.
   */
  lemma TombstoneLasts(l: Limits, s: Registry, id: string, since: real, steps: seq<(Step, real)>)
    requires Kept(l, s) && Tombstone(s, id, since + l.ttl) && Times(steps, since, since + l.ttl)
    ensures TombstoneThroughout(l, s, id, since + l.ttl, steps) <==> forall i | 0 <= i < |steps| :: steps[i].0 != Withdraw(id)
    ensures TombstoneThroughout(l, s, id, since + l.ttl, steps) ==>
              forall i | 0 <= i < |steps| :: !MayRegister(l, Run(l, s, steps[..i]), id, steps[i].1)
  {
    var until := since + l.ttl;
    if forall i | 0 <= i < |steps| :: steps[i].0 != Withdraw(id) {
      forall k | 0 <= k <= |steps|
        ensures Tombstone(Run(l, s, steps[..k]), id, until)
      {
        TombstoneUpTo(l, s, id, since, steps, k);
      }
    }
    if TombstoneThroughout(l, s, id, until, steps) {
      forall i | 0 <= i < |steps|
        ensures steps[i].0 != Withdraw(id) && !MayRegister(l, Run(l, s, steps[..i]), id, steps[i].1)
      {
        TombstoneAt(l, s, id, since, steps, i);
      }
    }
  }

  lemma TombstoneAt(l: Limits, s: Registry, id: string, since: real, steps: seq<(Step, real)>, i: nat)
    requires Kept(l, s) && Times(steps, since, since + l.ttl) && i < |steps|
    requires TombstoneThroughout(l, s, id, since + l.ttl, steps)
    ensures steps[i].0 != Withdraw(id) && !MayRegister(l, Run(l, s, steps[..i]), id, steps[i].1)
  {
    EveryRunIsKept(l, s, steps[..i]);
    assert steps[..i + 1][..i] == steps[..i];
    assert Tombstone(Run(l, s, steps[..i]), id, since + l.ttl) && Tombstone(Run(l, s, steps[..i + 1]), id, since + l.ttl);
    TombstoneStep(l, Run(l, s, steps[..i]), id, since + l.ttl, steps[i].0, steps[i].1);
  }

  lemma {:induction false} TombstoneUpTo(l: Limits, s: Registry, id: string, since: real, steps: seq<(Step, real)>, k: nat)
    requires Kept(l, s) && Tombstone(s, id, since + l.ttl) && Times(steps, since, since + l.ttl)
    requires k <= |steps| && forall i | 0 <= i < |steps| :: steps[i].0 != Withdraw(id)
    ensures Tombstone(Run(l, s, steps[..k]), id, since + l.ttl)
  {
    if k == 0 {
      assert steps[..0] == [];
    } else {
      TombstoneUpTo(l, s, id, since, steps, k - 1);
      EveryRunIsKept(l, s, steps[..k - 1]);
      assert steps[..k][..k - 1] == steps[..k - 1];
      TombstoneStep(l, Run(l, s, steps[..k - 1]), id, since + l.ttl, steps[k - 1].0, steps[k - 1].1);
    }
  }

  /**
   * A registration whose owner cannot be stored withdraws its entry even if the task was cancelled meanwhile,
   * and the cancelled id can be registered and run again at once.
   */
  lemma WithdrawalForgetsCancellation()
    ensures var l := Limits(1800.0, 10);
            var steps: seq<(Step, real)> := [(Insert("t", Some("u")), 0.0), (Cancel("t"), 1.0), (Withdraw("t"), 2.0), (Insert("t", Some("u")), 3.0)];
            && IsCancelled(Run(l, EMPTY, steps[..2]), "t")
            && "t" in Run(l, EMPTY, steps).tasks && !IsCancelled(Run(l, EMPTY, steps), "t")
  {
    var l := Limits(1800.0, 10);
    var steps: seq<(Step, real)> := [(Insert("t", Some("u")), 0.0), (Cancel("t"), 1.0), (Withdraw("t"), 2.0), (Insert("t", Some("u")), 3.0)];
    assert steps[..4] == steps && steps[..4][..3] == steps[..3] && steps[..3][..2] == steps[..2] && steps[..2][..1] == steps[..1];
    assert |steps[..1][..0]| == 0;
    var s1 := Run(l, EMPTY, steps[..1]);
    assert Purged(EMPTY, 0.0) == EMPTY;
    assert Run(l, EMPTY, steps[..1]) == Next(l, EMPTY, Insert("t", Some("u")), 0.0);
    assert |EMPTY.tasks| == 0;
    assert s1 == Registry(map["t" := Info(Some("u"), false, None, None)], {});
    assert Purged(s1, 1.0).tasks == s1.tasks;
    var s2 := Run(l, EMPTY, steps[..2]);
    assert s2 == Registry(map["t" := Info(Some("u"), true, None, Some(1801.0))], {});
    var s3 := Run(l, EMPTY, steps[..3]);
    assert s3.tasks == map[];
    assert Purged(s3, 3.0).tasks == map[];
  }
}
