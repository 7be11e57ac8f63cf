/**
 * Cancelling a stream that another process owns (agent_service/services/stream_task_manager.py):
 * the registries of all processes, the shared markers, and the notifications on their way.
 * Marker writes succeed and notifications arrive in the end; the times to live run from the cancellation of each task.
 */
module Cancellation {

  import opened Text
  import R = TaskRegistry

  /**
   * `registering`: inserted, marker not read yet. `marking`: marker written, not published yet. `cancelling`:
   * published, not yet cancelled locally. `clearing`: removed by its owner, marker not deleted yet.
   * `home`, `asked`, `published` and `finalized` record what has happened so far: where a task was registered last, and
   * whether its cancellation was ever marked, published, and the task finalized.
   */
  datatype Cluster = Cluster(
    registries: map<nat, R.Registry>,
    marked: set<string>,
    registering: set<(nat, string)>,
    marking: set<(nat, string)>,
    cancelling: set<(nat, string)>,
    clearing: set<string>,
    pending: multiset<(nat, string)>,
    home: map<string, nat>,
    asked: set<string>,
    published: set<string>,
    finalized: set<string>)

  datatype Step =
    | Insert(worker: nat, id: string, owner: Option<string>)
    | ReadMarker(worker: nat, id: string)
    | Mark(worker: nat, id: string)
    | Publish(worker: nat, id: string)
    | CancelHere(worker: nat, id: string)
    | Deliver(worker: nat, id: string)
    | Bind(worker: nat, id: string, handle: nat)
    | Finalize(worker: nat, id: string)
    | Clear(worker: nat, id: string)
    | Look(worker: nat, id: string)
    | MarkerExpires(worker: nat, id: string)

  function Local(l: R.Limits, c: Cluster, worker: nat, step: R.Step, now: real): Cluster
    requires worker in c.registries
  {
    c.(registries := c.registries[worker := R.Next(l, c.registries[worker], step, now)])
  }

  function Audience(c: Cluster, id: string): set<(nat, string)> {
    set w | w in c.registries :: (w, id)
  }

  /**
   * One step of one process, at a reading of its own clock; a step that is not that process's next one changes nothing.
   * A marker expires on the server, beside any process.
   */
  function Next(l: R.Limits, c: Cluster, step: Step, now: real): Cluster {
    var w, id := step.worker, step.id;
    if w !in c.registries then c
    else
      match step
      case Insert(_, _, owner) =>
        var d := Local(l, c, w, R.Insert(id, owner), now);
        if R.MayRegister(l, c.registries[w], id, now)
        then d.(registering := d.registering + {(w, id)}, home := d.home[id := w])
        else d
      case ReadMarker(_, _) =>
        if (w, id) !in c.registering then c
        else
          var d := c.(registering := c.registering - {(w, id)});
          if id in c.marked then Local(l, d, w, R.Cancel(id), now) else d
      case Mark(_, _) => c.(marked := c.marked + {id}, marking := c.marking + {(w, id)}, asked := c.asked + {id})
      case Publish(_, _) =>
        if (w, id) !in c.marking then c
        else c.(marking := c.marking - {(w, id)}, cancelling := c.cancelling + {(w, id)},
                pending := c.pending + multiset(Audience(c, id)), published := c.published + {id})
      case CancelHere(_, _) =>
        if (w, id) !in c.cancelling then c
        else Local(l, c.(cancelling := c.cancelling - {(w, id)}), w, R.Cancel(id), now)
      case Deliver(_, _) =>
        if (w, id) !in c.pending then c
        else Local(l, c.(pending := c.pending - multiset{(w, id)}), w, R.Cancel(id), now)
      case Bind(_, _, handle) => Local(l, c, w, R.Bind(id, handle), now)
      case Finalize(_, _) =>
        if (w, id) in c.registering then c
        else
          var d := Local(l, c, w, R.Finalize(id), now);
          if StatusOf(R.Purged(c.registries[w], now), id) == Running
          then d.(clearing := d.clearing + {id}, finalized := d.finalized + {id})
          else d
      case Clear(_, _) =>
        if id in c.clearing then c.(clearing := c.clearing - {id}, marked := c.marked - {id}) else c
      case Look(_, _) => Local(l, c, w, R.Look, now)
      case MarkerExpires(_, _) => c.(marked := c.marked - {id})
  }

  function Run(l: R.Limits, c: Cluster, steps: seq<(Step, real)>): Cluster {
    if steps == [] then c
    else
      var (step, now) := steps[|steps| - 1];
      Next(l, Run(l, c, steps[..|steps| - 1]), step, now)
  }

  function Start(workers: set<nat>): Cluster {
    Cluster(map w | w in workers :: R.EMPTY, {}, {}, {}, {}, {}, multiset{}, map[], {}, {}, {})
  }

  // ---- One task in one registry ----

  datatype Status = Absent | Running | Cancelled

  function StatusOf(r: R.Registry, id: string): Status {
    if id !in r.tasks then Absent else if r.tasks[id].cancelled then Cancelled else Running
  }

  /** The entry of `id` is not cancelled before that was `asked` for, and then does not expire before `t0` plus the time to live. */
  ghost predicate Young(l: R.Limits, r: R.Registry, id: string, asked: bool, t0: real) {
    id in r.tasks ==>
      && (r.tasks[id].cancelled || r.tasks[id].expiresAt.Some? ==> asked)
      && (r.tasks[id].expiresAt.Some? ==> r.tasks[id].expiresAt.value >= t0 + l.ttl)
  }

  ghost predicate InTime(l: R.Limits, asked: bool, t0: real, now: real) {
    asked ==> t0 <= now < t0 + l.ttl
  }

  lemma NothingExpires(l: R.Limits, r: R.Registry, id: string, asked: bool, t0: real, now: real)
    requires Young(l, r, id, asked, t0) && InTime(l, asked, t0, now)
    ensures id in R.Purged(r, now).tasks <==> id in r.tasks
    ensures id in r.tasks ==> R.Purged(r, now).tasks[id] == r.tasks[id]
  {}

  lemma StatusAfter(l: R.Limits, r: R.Registry, step: R.Step, now: real, id: string, asked: bool, t0: real)
    requires Young(l, r, id, asked, t0) && InTime(l, asked, t0, now) && !step.Withdraw? && (step == R.Cancel(id) ==> asked)
    ensures var before, after := StatusOf(r, id), StatusOf(R.Next(l, r, step, now), id);
            && (step == R.Cancel(id) ==> after == if before == Absent then Absent else Cancelled)
            && (step == R.Finalize(id) ==> after == if before == Running then Absent else before)
            && (step.Insert? && step.id == id ==> after == if R.MayRegister(l, r, id, now) then Running else before)
            && (step.Insert? && step.id == id && R.MayRegister(l, r, id, now) ==> before == Absent)
            && (step.Look? || step.Bind? || step.id != id ==> after == before)
    ensures Young(l, R.Next(l, r, step, now), id, asked, t0)
  {
    NothingExpires(l, r, id, asked, t0, now);
  }

  // ---- One task at one process, as far as cancellation is concerned ----

  datatype View = View(
    status: Status, isHome: bool, registered: bool, registering: bool, asked: bool, marking: bool, marked: bool,
    published: bool, cancelling: bool, pending: bool, clearing: bool, finalized: bool)

  function ViewOf(c: Cluster, w: nat, id: string): View {
    View(
      if w in c.registries then StatusOf(c.registries[w], id) else Absent,
      id in c.home && c.home[id] == w, id in c.home, (w, id) in c.registering, id in c.asked, (w, id) in c.marking,
      id in c.marked, id in c.published, (w, id) in c.cancelling, (w, id) in c.pending, id in c.clearing, id in c.finalized)
  }

  /** Nothing of a cancellation is on its way before it was asked for. */
  ghost predicate Begun(v: View) {
    v.marking || v.marked || v.published || v.cancelling || v.pending ==> v.asked
  }

  /**
   * The race is closed because a marker outlives its task unless the owner removed the task itself, and
   * whoever still runs a task whose cancellation was published has the notification or the marker ahead.
   */
  ghost predicate Covered(v: View) {
    && Begun(v)
    && (v.status != Absent ==> v.isHome && !v.finalized)
    && (v.isHome ==> v.registered && (v.status != Absent || v.finalized))
    && (v.registering ==> v.status != Absent)
    && (v.marking || v.published ==> v.marked || v.finalized)
    && (v.clearing ==> v.finalized)
    && (v.finalized ==> v.registered)
    && (v.published && v.status == Running ==> v.pending || v.registering)
  }

  /** The same for ids that may be registered again, as long as no marker is deleted. */
  ghost predicate Reached(v: View) {
    && Begun(v)
    && (v.marking || v.published ==> v.marked)
    && (v.published && v.status == Running ==> v.pending || v.registering)
  }

  ghost predicate AllYoung(l: R.Limits, c: Cluster, id: string, t0: nat -> real) {
    forall w | w in c.registries :: Young(l, c.registries[w], id, id in c.asked, t0(w))
  }

  ghost predicate Inv(l: R.Limits, c: Cluster, id: string, t0: nat -> real) {
    AllYoung(l, c, id, t0) && forall w :: Covered(ViewOf(c, w, id))
  }

  ghost predicate ReuseInv(l: R.Limits, c: Cluster, id: string, t0: nat -> real) {
    AllYoung(l, c, id, t0) && forall w :: Reached(ViewOf(c, w, id))
  }

  /** What a step does to the registry of its process. */
  function LocalStep(step: Step): R.Step {
    match step
    case Insert(_, id, owner) => R.Insert(id, owner)
    case Bind(_, id, handle) => R.Bind(id, handle)
    case Finalize(_, id) => R.Finalize(id)
    case Look(_, _) => R.Look
    case _ => R.Cancel(step.id)
  }

  /** The step cancels its task at its process. */
  predicate Cancels(c: Cluster, step: Step) {
    match step
    case ReadMarker(w, id) => (w, id) in c.registering && id in c.marked
    case CancelHere(w, id) => (w, id) in c.cancelling
    case Deliver(w, id) => (w, id) in c.pending
    case _ => false
  }

  /** The step leaves all registries alone. */
  predicate Elsewhere(c: Cluster, step: Step) {
    match step
    case Insert(_, _, _) => false
    case Bind(_, _, _) => false
    case Look(_, _) => false
    case Finalize(w, id) => (w, id) in c.registering
    case _ => !Cancels(c, step)
  }

  lemma NextRegistry(l: R.Limits, c: Cluster, step: Step, now: real, w: nat)
    requires w in c.registries
    ensures var d := Next(l, c, step, now);
            && w in d.registries
            && d.registries[w] == if w == step.worker && !Elsewhere(c, step) then R.Next(l, c.registries[w], LocalStep(step), now) else c.registries[w]
  {}

  /** What a step makes of the status of a task at its own process. */
  function StatusNext(l: R.Limits, c: Cluster, step: Step, now: real): Status
    requires step.worker in c.registries
  {
    var r := c.registries[step.worker];
    var before := StatusOf(r, step.id);
    match step
    case Insert(_, _, _) => if R.MayRegister(l, r, step.id, now) then Running else before
    case Finalize(w, id) => if before == Running && (w, id) !in c.registering then Absent else before
    case _ => if Cancels(c, step) && before != Absent then Cancelled else before
  }

  lemma NextStatus(l: R.Limits, c: Cluster, step: Step, now: real, w: nat, id: string, t0: nat -> real)
    requires AllYoung(l, c, id, t0) && w in c.registries
    requires w == step.worker ==> InTime(l, id in c.asked, t0(w), now)
    requires Cancels(c, step) && step.id == id ==> id in c.asked
    ensures var d := Next(l, c, step, now);
            && w in d.registries
            && StatusOf(d.registries[w], id) ==
               (if w == step.worker && id == step.id then StatusNext(l, c, step, now) else StatusOf(c.registries[w], id))
            && Young(l, d.registries[w], id, id in c.asked, t0(w))
    ensures w == step.worker ==> StatusOf(R.Purged(c.registries[w], now), id) == StatusOf(c.registries[w], id)
    ensures w == step.worker && step.Insert? && step.id == id && R.MayRegister(l, c.registries[w], id, now) ==> StatusOf(c.registries[w], id) == Absent
  {
    NextRegistry(l, c, step, now, w);
    assert Young(l, c.registries[w], id, id in c.asked, t0(w));
    if w == step.worker {
      NothingExpires(l, c.registries[w], id, id in c.asked, t0(w), now);
      if !Elsewhere(c, step) {
        StatusAfter(l, c.registries[w], LocalStep(step), now, id, id in c.asked, t0(w));
      }
    }
  }

  lemma NextAsked(l: R.Limits, c: Cluster, step: Step, now: real, id: string)
    ensures var d := Next(l, c, step, now);
            d.registries.Keys == c.registries.Keys && c.asked <= d.asked
  {}

  lemma NextIsYoung(l: R.Limits, c: Cluster, step: Step, now: real, id: string, t0: nat -> real)
    requires AllYoung(l, c, id, t0)
    requires step.worker in c.registries ==> InTime(l, id in c.asked, t0(step.worker), now)
    requires Cancels(c, step) && step.id == id ==> id in c.asked
    ensures AllYoung(l, Next(l, c, step, now), id, t0)
  {
    var d := Next(l, c, step, now);
    NextAsked(l, c, step, now, id);
    forall w | w in d.registries
      ensures Young(l, d.registries[w], id, id in d.asked, t0(w))
    {
      NextStatus(l, c, step, now, w, id, t0);
    }
  }

  // ---- Ids that are registered once ----

  lemma OtherTaskIsCovered(l: R.Limits, c: Cluster, step: Step, now: real, w: nat, id: string, t0: nat -> real)
    requires AllYoung(l, c, id, t0) && id != step.id
    requires step.worker in c.registries ==> InTime(l, id in c.asked, t0(step.worker), now)
    ensures ViewOf(Next(l, c, step, now), w, id) == ViewOf(c, w, id)
  {
    NextAsked(l, c, step, now, id);
    OtherTask(l, c, step, now, w, id);
    if w in c.registries {
      NextStatus(l, c, step, now, w, id, t0);
    }
  }

  /** Apart from registries, a step says nothing about other tasks. */
  lemma OtherTask(l: R.Limits, c: Cluster, step: Step, now: real, w: nat, id: string)
    requires id != step.id
    ensures ViewOf(Next(l, c, step, now), w, id).(status := Absent) == ViewOf(c, w, id).(status := Absent)
  {
    match step
    case Publish(_, _) => OtherTaskPublished(l, c, step, now, w, id);
    case Deliver(_, _) => OtherTaskDelivered(l, c, step, now, w, id);
    case Insert(_, _, _) => OtherTaskInserted(l, c, step, now, w, id);
    case Finalize(_, _) => OtherTaskFinalized(l, c, step, now, w, id);
    case ReadMarker(_, _) => OtherTaskRead(l, c, step, now, w, id);
    case CancelHere(_, _) => OtherTaskCancelled(l, c, step, now, w, id);
    case _ => OtherTaskUntouched(l, c, step, now, w, id);
  }

  lemma OtherTaskInserted(l: R.Limits, c: Cluster, step: Step, now: real, w: nat, id: string)
    requires id != step.id && step.Insert?
    ensures ViewOf(Next(l, c, step, now), w, id).(status := Absent) == ViewOf(c, w, id).(status := Absent)
  {}

  lemma OtherTaskFinalized(l: R.Limits, c: Cluster, step: Step, now: real, w: nat, id: string)
    requires id != step.id && step.Finalize?
    ensures ViewOf(Next(l, c, step, now), w, id).(status := Absent) == ViewOf(c, w, id).(status := Absent)
  {}

  lemma OtherTaskRead(l: R.Limits, c: Cluster, step: Step, now: real, w: nat, id: string)
    requires id != step.id && step.ReadMarker?
    ensures ViewOf(Next(l, c, step, now), w, id).(status := Absent) == ViewOf(c, w, id).(status := Absent)
  {}

  lemma OtherTaskCancelled(l: R.Limits, c: Cluster, step: Step, now: real, w: nat, id: string)
    requires id != step.id && step.CancelHere?
    ensures ViewOf(Next(l, c, step, now), w, id).(status := Absent) == ViewOf(c, w, id).(status := Absent)
  {}

  lemma OtherTaskUntouched(l: R.Limits, c: Cluster, step: Step, now: real, w: nat, id: string)
    requires id != step.id && (step.Mark? || step.Bind? || step.Clear? || step.Look? || step.MarkerExpires?)
    ensures ViewOf(Next(l, c, step, now), w, id).(status := Absent) == ViewOf(c, w, id).(status := Absent)
  {}

  lemma OtherTaskPublished(l: R.Limits, c: Cluster, step: Step, now: real, w: nat, id: string)
    requires id != step.id && step.Publish?
    ensures ViewOf(Next(l, c, step, now), w, id) == ViewOf(c, w, id)
  {
    assert (w, id) !in Audience(c, step.id);
  }

  lemma OtherTaskDelivered(l: R.Limits, c: Cluster, step: Step, now: real, w: nat, id: string)
    requires id != step.id && step.Deliver?
    ensures ViewOf(Next(l, c, step, now), w, id).(status := Absent) == ViewOf(c, w, id).(status := Absent)
  {}

  lemma InsertIsCovered(l: R.Limits, c: Cluster, step: Step, now: real, w: nat, t0: nat -> real)
    requires AllYoung(l, c, step.id, t0) && step.Insert? && step.worker in c.registries
    requires InTime(l, step.id in c.asked, t0(step.worker), now)
    requires Covered(ViewOf(c, w, step.id)) && step.id !in c.home
    ensures Covered(ViewOf(Next(l, c, step, now), w, step.id))
  {
    NextStatus(l, c, step, now, step.worker, step.id, t0);
    if w in c.registries {
      NextStatus(l, c, step, now, w, step.id, t0);
    }
  }

  lemma FinalizeIsCovered(l: R.Limits, c: Cluster, step: Step, now: real, w: nat, t0: nat -> real)
    requires AllYoung(l, c, step.id, t0) && step.Finalize? && step.worker in c.registries
    requires InTime(l, step.id in c.asked, t0(step.worker), now)
    requires Covered(ViewOf(c, w, step.id)) && Covered(ViewOf(c, step.worker, step.id))
    ensures Covered(ViewOf(Next(l, c, step, now), w, step.id))
  {
    NextStatus(l, c, step, now, step.worker, step.id, t0);
    if w in c.registries {
      NextStatus(l, c, step, now, w, step.id, t0);
    }
  }

  /** What the step makes of the status of its own task at `w` is known. */
  ghost predicate StatusKnown(l: R.Limits, c: Cluster, step: Step, now: real, w: nat) {
    && step.worker in c.registries && w in c.registries && w in Next(l, c, step, now).registries
    && StatusOf(Next(l, c, step, now).registries[w], step.id) ==
       if w == step.worker then StatusNext(l, c, step, now) else StatusOf(c.registries[w], step.id)
  }

  lemma OtherStepIsCovered(l: R.Limits, c: Cluster, step: Step, now: real, w: nat, t0: nat -> real)
    requires !step.Finalize? && !step.Insert? && (step.MarkerExpires? ==> step.id !in c.asked)
    requires AllYoung(l, c, step.id, t0) && step.worker in c.registries
    requires InTime(l, step.id in c.asked, t0(step.worker), now)
    requires Covered(ViewOf(c, w, step.id)) && Covered(ViewOf(c, step.worker, step.id))
    ensures Covered(ViewOf(Next(l, c, step, now), w, step.id))
  {
    if w !in c.registries {
      UnknownIsCovered(l, c, step, now, w);
    } else {
      NextStatus(l, c, step, now, w, step.id, t0);
      match step
      case Publish(_, _) => PublishIsCovered(l, c, step, now, w);
      case Deliver(_, _) => DeliverIsCovered(l, c, step, now, w);
      case ReadMarker(_, _) => ReadIsCovered(l, c, step, now, w);
      case CancelHere(_, _) => CancelIsCovered(l, c, step, now, w);
      case _ => PlainIsCovered(l, c, step, now, w);
    }
  }

  lemma UnknownIsCovered(l: R.Limits, c: Cluster, step: Step, now: real, w: nat)
    requires !step.Finalize? && !step.Insert? && (step.MarkerExpires? ==> step.id !in c.asked) && w !in c.registries
    requires Covered(ViewOf(c, w, step.id)) && Covered(ViewOf(c, step.worker, step.id))
    ensures Covered(ViewOf(Next(l, c, step, now), w, step.id))
  {}

  lemma PublishIsCovered(l: R.Limits, c: Cluster, step: Step, now: real, w: nat)
    requires step.Publish? && StatusKnown(l, c, step, now, w)
    requires Covered(ViewOf(c, w, step.id)) && Covered(ViewOf(c, step.worker, step.id))
    ensures Covered(ViewOf(Next(l, c, step, now), w, step.id))
  {
    assert (w, step.id) in Audience(c, step.id);
  }

  lemma DeliverIsCovered(l: R.Limits, c: Cluster, step: Step, now: real, w: nat)
    requires step.Deliver? && StatusKnown(l, c, step, now, w)
    requires Covered(ViewOf(c, w, step.id)) && Covered(ViewOf(c, step.worker, step.id))
    ensures Covered(ViewOf(Next(l, c, step, now), w, step.id))
  {}

  lemma ReadIsCovered(l: R.Limits, c: Cluster, step: Step, now: real, w: nat)
    requires step.ReadMarker? && StatusKnown(l, c, step, now, w)
    requires Covered(ViewOf(c, w, step.id)) && Covered(ViewOf(c, step.worker, step.id))
    ensures Covered(ViewOf(Next(l, c, step, now), w, step.id))
  {}

  lemma CancelIsCovered(l: R.Limits, c: Cluster, step: Step, now: real, w: nat)
    requires step.CancelHere? && StatusKnown(l, c, step, now, w)
    requires Covered(ViewOf(c, w, step.id)) && Covered(ViewOf(c, step.worker, step.id))
    ensures Covered(ViewOf(Next(l, c, step, now), w, step.id))
  {}

  lemma PlainIsCovered(l: R.Limits, c: Cluster, step: Step, now: real, w: nat)
    requires step.Mark? || step.Bind? || step.Clear? || step.Look? || (step.MarkerExpires? && step.id !in c.asked)
    requires StatusKnown(l, c, step, now, w)
    requires Covered(ViewOf(c, w, step.id)) && Covered(ViewOf(c, step.worker, step.id))
    ensures Covered(ViewOf(Next(l, c, step, now), w, step.id))
  {}

  lemma NextIsCovered(l: R.Limits, c: Cluster, step: Step, now: real, id: string, t0: nat -> real)
    requires Inv(l, c, id, t0) && Admissible(l, c, step, now, id, t0)
    requires step.Insert? && step.id == id ==> id !in c.home
    ensures Inv(l, Next(l, c, step, now), id, t0)
  {
    if step.worker in c.registries {
      assert Covered(ViewOf(c, step.worker, step.id)) || step.id != id;
      assert Covered(ViewOf(c, step.worker, id));
      NextIsYoung(l, c, step, now, id, t0);
      forall w
        ensures Covered(ViewOf(Next(l, c, step, now), w, id))
      {
        assert Covered(ViewOf(c, w, id));
        if id != step.id {
          OtherTaskIsCovered(l, c, step, now, w, id, t0);
        } else if step.Insert? {
          InsertIsCovered(l, c, step, now, w, t0);
        } else if step.Finalize? {
          FinalizeIsCovered(l, c, step, now, w, t0);
        } else {
          OtherStepIsCovered(l, c, step, now, w, t0);
        }
      }
    }
  }

  /**
   * Once the cancellation of `id` has been asked for, its time to live has not elapsed: neither by the clock of the process
   * that takes the step, which read at least `t0` then, nor at the server.
   */
  ghost predicate Admissible(l: R.Limits, c: Cluster, step: Step, now: real, id: string, t0: nat -> real) {
    InTime(l, id in c.asked, t0(step.worker), now) && (step.MarkerExpires? && step.id == id ==> id !in c.asked)
  }

  /** The id is registered once, and the time to live of its cancellation has not elapsed. All else is free. */
  ghost predicate Proper(l: R.Limits, c: Cluster, steps: seq<(Step, real)>, id: string, t0: nat -> real) {
    steps == []
    || (var n := |steps| - 1;
        var before := Run(l, c, steps[..n]);
        && Proper(l, c, steps[..n], id, t0)
        && Admissible(l, before, steps[n].0, steps[n].1, id, t0)
        && (steps[n].0.Insert? && steps[n].0.id == id ==> id !in before.home))
  }

  lemma {:induction false} EveryRunIsCovered(l: R.Limits, workers: set<nat>, steps: seq<(Step, real)>, id: string, t0: nat -> real)
    requires Proper(l, Start(workers), steps, id, t0)
    ensures Inv(l, Run(l, Start(workers), steps), id, t0)
  {
    if steps != [] {
      var n := |steps| - 1;
      EveryRunIsCovered(l, workers, steps[..n], id, t0);
      NextIsCovered(l, Run(l, Start(workers), steps[..n]), steps[n].0, steps[n].1, id, t0);
    }
  }

  /**
   * In every interleaving: once the cancellation of a task has been published, its notification to the
   * owning process has arrived and the owner's registration is complete, the task is cancelled there or was
   * already finalized. No process runs it uncancelled.
   */
  lemma CancellationReachesOwner(l: R.Limits, workers: set<nat>, steps: seq<(Step, real)>, id: string, t0: nat -> real)
    requires Proper(l, Start(workers), steps, id, t0)
    requires var c := Run(l, Start(workers), steps);
             && id in c.published
             && (id in c.home ==> (c.home[id], id) !in c.pending && (c.home[id], id) !in c.registering)
    ensures var c := Run(l, Start(workers), steps);
            && (forall w | w in c.registries :: StatusOf(c.registries[w], id) != Running)
            && (id in c.home && id !in c.finalized ==>
                  c.home[id] in c.registries && StatusOf(c.registries[c.home[id]], id) == Cancelled)
  {
    EveryRunIsCovered(l, workers, steps, id, t0);
    var c := Run(l, Start(workers), steps);
    forall w | w in c.registries
      ensures StatusOf(c.registries[w], id) != Running
    {
      assert Covered(ViewOf(c, w, id));
    }
    if id in c.home {
      assert Covered(ViewOf(c, c.home[id], id));
    }
  }

  /** What is outstanding can be finished: each arrival and each marker read leaves the task not running. */
  lemma OutstandingStepsCancel(l: R.Limits, workers: set<nat>, steps: seq<(Step, real)>, id: string, t0: nat -> real, now: real)
    requires Proper(l, Start(workers), steps, id, t0)
    requires var c := Run(l, Start(workers), steps);
             && id in c.published && id in c.home && c.home[id] in c.registries
             && StatusOf(c.registries[c.home[id]], id) == Running
             && InTime(l, id in c.asked, t0(c.home[id]), now)
    ensures var c := Run(l, Start(workers), steps);
            var w := c.home[id];
            && ((w, id) in c.pending || (w, id) in c.registering)
            && ((w, id) in c.pending ==> StatusOf(Next(l, c, Deliver(w, id), now).registries[w], id) == Cancelled)
            && ((w, id) in c.registering ==> StatusOf(Next(l, c, ReadMarker(w, id), now).registries[w], id) == Cancelled)
  {
    EveryRunIsCovered(l, workers, steps, id, t0);
    var c := Run(l, Start(workers), steps);
    assert Covered(ViewOf(c, c.home[id], id));
    NextStatus(l, c, Deliver(c.home[id], id), now, c.home[id], id, t0);
    NextStatus(l, c, ReadMarker(c.home[id], id), now, c.home[id], id, t0);
  }

  // ---- Ids that are registered again ----

  /** No clean-up deletes the marker once the cancellation has been asked for; the id may be registered any number of times. */
  ghost predicate MarkerStays(l: R.Limits, c: Cluster, steps: seq<(Step, real)>, id: string, t0: nat -> real) {
    steps == []
    || (var n := |steps| - 1;
        var before := Run(l, c, steps[..n]);
        && MarkerStays(l, c, steps[..n], id, t0)
        && Admissible(l, before, steps[n].0, steps[n].1, id, t0)
        && (steps[n].0.Clear? && steps[n].0.id == id && id in before.clearing ==> id !in before.asked))
  }

  lemma StepReaches(l: R.Limits, c: Cluster, step: Step, now: real, w: nat, t0: nat -> real)
    requires AllYoung(l, c, step.id, t0) && step.worker in c.registries
    requires InTime(l, step.id in c.asked, t0(step.worker), now)
    requires step.MarkerExpires? || (step.Clear? && step.id in c.clearing) ==> step.id !in c.asked
    requires Reached(ViewOf(c, w, step.id)) && Reached(ViewOf(c, step.worker, step.id))
    ensures Reached(ViewOf(Next(l, c, step, now), w, step.id))
  {
    if w !in c.registries {
      UnknownReaches(l, c, step, now, w);
    } else {
      NextStatus(l, c, step, now, w, step.id, t0);
      match step
      case Publish(_, _) => PublishReaches(l, c, step, now, w);
      case Deliver(_, _) => DeliverReaches(l, c, step, now, w);
      case Insert(_, _, _) => InsertReaches(l, c, step, now, w);
      case Finalize(_, _) => FinalizeReaches(l, c, step, now, w);
      case ReadMarker(_, _) => ReadReaches(l, c, step, now, w);
      case _ => PlainReaches(l, c, step, now, w);
    }
  }

  lemma UnknownReaches(l: R.Limits, c: Cluster, step: Step, now: real, w: nat)
    requires w !in c.registries && (step.MarkerExpires? || (step.Clear? && step.id in c.clearing) ==> step.id !in c.asked)
    requires Reached(ViewOf(c, w, step.id)) && Reached(ViewOf(c, step.worker, step.id))
    ensures Reached(ViewOf(Next(l, c, step, now), w, step.id))
  {}

  lemma PublishReaches(l: R.Limits, c: Cluster, step: Step, now: real, w: nat)
    requires step.Publish? && StatusKnown(l, c, step, now, w)
    requires Reached(ViewOf(c, w, step.id)) && Reached(ViewOf(c, step.worker, step.id))
    ensures Reached(ViewOf(Next(l, c, step, now), w, step.id))
  {
    assert (w, step.id) in Audience(c, step.id);
  }

  lemma DeliverReaches(l: R.Limits, c: Cluster, step: Step, now: real, w: nat)
    requires step.Deliver? && StatusKnown(l, c, step, now, w)
    requires Reached(ViewOf(c, w, step.id)) && Reached(ViewOf(c, step.worker, step.id))
    ensures Reached(ViewOf(Next(l, c, step, now), w, step.id))
  {}

  lemma InsertReaches(l: R.Limits, c: Cluster, step: Step, now: real, w: nat)
    requires step.Insert? && StatusKnown(l, c, step, now, w)
    requires Reached(ViewOf(c, w, step.id)) && Reached(ViewOf(c, step.worker, step.id))
    ensures Reached(ViewOf(Next(l, c, step, now), w, step.id))
  {}

  lemma FinalizeReaches(l: R.Limits, c: Cluster, step: Step, now: real, w: nat)
    requires step.Finalize? && StatusKnown(l, c, step, now, w)
    requires Reached(ViewOf(c, w, step.id)) && Reached(ViewOf(c, step.worker, step.id))
    ensures Reached(ViewOf(Next(l, c, step, now), w, step.id))
  {}

  lemma ReadReaches(l: R.Limits, c: Cluster, step: Step, now: real, w: nat)
    requires step.ReadMarker? && StatusKnown(l, c, step, now, w)
    requires Reached(ViewOf(c, w, step.id)) && Reached(ViewOf(c, step.worker, step.id))
    ensures Reached(ViewOf(Next(l, c, step, now), w, step.id))
  {}

  lemma PlainReaches(l: R.Limits, c: Cluster, step: Step, now: real, w: nat)
    requires (step.Mark? || step.CancelHere? || step.Bind? || step.Look? || ((step.Clear? || step.MarkerExpires?) && (step.id in c.asked ==> step.Clear? && step.id !in c.clearing)))
    requires StatusKnown(l, c, step, now, w)
    requires Reached(ViewOf(c, w, step.id)) && Reached(ViewOf(c, step.worker, step.id))
    ensures Reached(ViewOf(Next(l, c, step, now), w, step.id))
  {}

  lemma NextReaches(l: R.Limits, c: Cluster, step: Step, now: real, id: string, t0: nat -> real)
    requires ReuseInv(l, c, id, t0) && Admissible(l, c, step, now, id, t0)
    requires step.Clear? && step.id == id && id in c.clearing ==> id !in c.asked
    ensures ReuseInv(l, Next(l, c, step, now), id, t0)
  {
    if step.worker in c.registries {
      assert Reached(ViewOf(c, step.worker, id));
      NextIsYoung(l, c, step, now, id, t0);
      forall w
        ensures Reached(ViewOf(Next(l, c, step, now), w, id))
      {
        assert Reached(ViewOf(c, w, id));
        if id != step.id {
          OtherTaskIsCovered(l, c, step, now, w, id, t0);
        } else {
          StepReaches(l, c, step, now, w, t0);
        }
      }
    }
  }

  lemma {:induction false} EveryRunReaches(l: R.Limits, workers: set<nat>, steps: seq<(Step, real)>, id: string, t0: nat -> real)
    requires MarkerStays(l, Start(workers), steps, id, t0)
    ensures ReuseInv(l, Run(l, Start(workers), steps), id, t0)
  {
    if steps != [] {
      var n := |steps| - 1;
      EveryRunReaches(l, workers, steps[..n], id, t0);
      NextReaches(l, Run(l, Start(workers), steps[..n]), steps[n].0, steps[n].1, id, t0);
    }
  }

  /**
   * A cancellation also reaches an id that is registered again, at any process and any number of times, unless a clean-up
   * deletes the marker: whoever has its notification and its registration behind it does not run the task uncancelled.
   */
  lemma CancellationReachesReusedIds(l: R.Limits, workers: set<nat>, steps: seq<(Step, real)>, id: string, t0: nat -> real, w: nat)
    requires MarkerStays(l, Start(workers), steps, id, t0)
    requires var c := Run(l, Start(workers), steps);
             id in c.published && w in c.registries && (w, id) !in c.pending && (w, id) !in c.registering
    ensures StatusOf(Run(l, Start(workers), steps).registries[w], id) != Running
  {
    EveryRunReaches(l, workers, steps, id, t0);
    assert Reached(ViewOf(Run(l, Start(workers), steps), w, id));
  }

  /**
   * Otherwise, when a task id is registered again, the first owner's clean-up can delete the marker that was meant for the
   * second: here process 2 ends up running task "t" although its cancellation was published and delivered everywhere.
   */
  function Reuse(): seq<(Step, real)> {
    [(Insert(1, "t", None), 0.0), (ReadMarker(1, "t"), 0.0), (Finalize(1, "t"), 1.0),
     (Mark(1, "t"), 2.0), (Publish(1, "t"), 2.0), (Deliver(1, "t"), 2.0), (Deliver(2, "t"), 2.0),
     (Clear(1, "t"), 3.0), (Insert(2, "t", None), 4.0), (ReadMarker(2, "t"), 4.0)]
  }

  lemma ReusedIdEscapes()
    ensures var c := Run(R.Limits(1800.0, 10), Start({1, 2}), Reuse());
            && "t" in c.published && c.pending == multiset{} && c.registering == {}
            && 2 in c.registries && StatusOf(c.registries[2], "t") == Running
  {
    ReachedStage(10);
    assert Reuse()[..10] == Reuse();
  }

  const BUSY := R.Registry(map["t" := R.Info(None, false, None, None)], {})

  /** The cluster after the first `k` steps of the reuse. */
  function Stage(k: nat): Cluster {
    Cluster(
      map[1 := if 1 <= k <= 2 then BUSY else R.EMPTY, 2 := if 9 <= k then BUSY else R.EMPTY],
      if 4 <= k <= 7 then {"t"} else {},
      if k == 1 then {(1, "t")} else if k == 9 then {(2, "t")} else {},
      if k == 4 then {(1, "t")} else {},
      if 5 <= k then {(1, "t")} else {},
      if 3 <= k <= 7 then {"t"} else {},
      if k == 5 then multiset{(1, "t"), (2, "t")} else if k == 6 then multiset{(2, "t")} else multiset{},
      if k == 0 then map[] else if k < 9 then map["t" := 1] else map["t" := 2],
      if 4 <= k then {"t"} else {},
      if 5 <= k then {"t"} else {},
      if 3 <= k then {"t"} else {})
  }

  ghost predicate Leads(k: nat)
    requires k < 10
  {
    Next(R.Limits(1800.0, 10), Stage(k), Reuse()[k].0, Reuse()[k].1) == Stage(k + 1)
  }

  lemma {:induction false} ReachedStage(k: nat)
    requires k <= 10
    ensures Run(R.Limits(1800.0, 10), Start({1, 2}), Reuse()[..k]) == Stage(k)
  {
    if k == 0 {
      assert Start({1, 2}).registries == Stage(0).registries;
    } else {
      ReachedStage(k - 1);
      EveryStageLeads(k - 1);
      assert Reuse()[..k][..k - 1] == Reuse()[..k - 1];
    }
  }

  lemma EveryStageLeads(k: nat)
    requires k < 10
    ensures Leads(k)
  {
    if k == 0 {
      FirstOwner();
    } else if k == 1 {
      FirstOwnerFindsNoMarker();
    } else if k == 2 {
      FirstOwnerLeaves();
    } else if k == 3 {
      Marking();
    } else if k == 4 {
      Publication();
    } else if k == 5 {
      FirstDelivery();
    } else if k == 6 {
      SecondDelivery();
    } else if k == 7 {
      MarkerIsDeleted();
    } else {
      SecondOwner();
    }
  }

  lemma FirstOwner()
    ensures Leads(0)
  {
    NothingHere(0.0);
  }

  lemma FirstOwnerFindsNoMarker()
    ensures Leads(1)
  {}

  lemma FirstOwnerLeaves()
    ensures Leads(2)
  {
    assert R.Purged(BUSY, 1.0).tasks == BUSY.tasks;
    assert BUSY.tasks - {"t"} == map[];
    assert R.Next(R.Limits(1800.0, 10), BUSY, R.Finalize("t"), 1.0) == R.EMPTY;
  }

  lemma Marking()
    ensures Leads(3)
  {}

  lemma Publication()
    ensures Leads(4)
  {
    BothHear();
    assert Stage(4).cancelling + {(1, "t")} == {(1, "t")} && Stage(4).marking - {(1, "t")} == {};
    assert Stage(4).published + {"t"} == {"t"};
  }

  lemma BothHear()
    ensures Stage(4).pending + multiset(Audience(Stage(4), "t")) == Stage(5).pending
  {
    assert Audience(Stage(4), "t") == {(1, "t"), (2, "t")};
    assert multiset({(1, "t"), (2, "t")}) == multiset{(1, "t"), (2, "t")};
  }

  lemma FirstDelivery()
    ensures Leads(5)
  {
    NothingHere(2.0);
    OneHasHeard();
  }

  lemma OneHasHeard()
    ensures Stage(5).pending - multiset{(1, "t")} == Stage(6).pending && (1, "t") in Stage(5).pending
  {}

  lemma SecondDelivery()
    ensures Leads(6)
  {
    NothingHere(2.0);
    OtherHasHeard();
  }

  lemma OtherHasHeard()
    ensures Stage(6).pending - multiset{(2, "t")} == Stage(7).pending && (2, "t") in Stage(6).pending
  {}

  lemma MarkerIsDeleted()
    ensures Leads(7)
  {}

  lemma SecondOwner()
    ensures Leads(8) && Leads(9)
  {
    NothingHere(4.0);
  }

  lemma NothingHere(now: real)
    ensures R.Purged(R.EMPTY, now) == R.EMPTY
    ensures R.MayRegister(R.Limits(1800.0, 10), R.EMPTY, "t", now)
  {
    assert R.Purged(R.EMPTY, now).tasks == map[];
  }
}
