/**
 * Cluster admission (agent_service/services/stream_queue_limiter.py): the Redis data that all workers
 * share, and one atomic step per script or command that a worker sends.
 */
module Admission {

  import opened Text

  datatype Entry = Entry(task: string, score: nat)

  /**
   * The waiting sorted set in score order, the expiry of each entry marker on the server's clock `now`,
   * the lease deadline of each permit, and the sequence counter. Times are in milliseconds.
   */
  datatype Redis = Redis(
    queue: seq<Entry>,
    markers: map<string, int>,
    permits: map<string, int>,
    sequence: nat,
    now: int)

  const EMPTY := Redis([], map[], map[], 0, 0)

  predicate Alive(r: Redis, task: string) {
    task in r.markers && r.markers[task] > r.now
  }

  // ---- Sorted-set commands ----

  /** ZREM. */
  function Zrem(q: seq<Entry>, gone: set<string>): seq<Entry> {
    if q == [] then []
    else Zrem(q[..|q| - 1], gone) + (if q[|q| - 1].task in gone then [] else [q[|q| - 1]])
  }

  /** ZRANK, or the length of the set for a missing member. */
  function Zrank(q: seq<Entry>, task: string): (k: nat)
    ensures k <= |q|
    ensures forall i | 0 <= i < k :: q[i].task != task
    ensures k < |q| ==> q[k].task == task
  {
    if q == [] then 0 else if q[0].task == task then 0 else 1 + Zrank(q[1..], task)
  }

  /** ZREMRANGEBYSCORE from minus infinity. */
  function Unexpired(permits: map<string, int>, nowMs: int): map<string, int> {
    map p | p in permits && permits[p] > nowMs :: permits[p]
  }

  function Shorter(a: nat, b: nat): nat {
    if a < b then a else b
  }

  /** How many entries one claim looks at; ZRANGE includes its upper index. */
  function Window(m: nat, q: seq<Entry>): nat {
    Shorter(|q|, m + 17)
  }

  function Dead(r: Redis, entries: seq<Entry>): set<string> {
    set e | e in entries && !Alive(r, e.task) :: e.task
  }

  function Swept(m: nat, r: Redis): seq<Entry> {
    Zrem(r.queue, Dead(r, r.queue[..Window(m, r.queue)]))
  }

  // ---- Steps ----

  /** Commands carry what the sending worker computed, so clocks may disagree and leases may differ. */
  datatype Step =
    | Enqueue(task: string, ttl: int)
    | Claim(task: string, permit: string, nowMs: int, leaseMs: int)
    | Renew(permit: string, leaseMs: int)
    | Release(permit: string)
    | DropEntry(task: string)
    | DropMarker(task: string)
    | Tick(ms: nat)

  predicate Grants(m: nat, r: Redis, task: string, nowMs: int) {
    var k := Zrank(Swept(m, r), task);
    k < |Swept(m, r)| && k < m && |Unexpired(r.permits, nowMs)| < m
  }

  function Enqueued(r: Redis, task: string, ttl: int): Redis {
    r.(markers := r.markers[task := r.now + ttl * 1000],
       sequence := r.sequence + 1,
       queue := Zrem(r.queue, {task}) + [Entry(task, r.sequence + 1)])
  }

  function Claimed(m: nat, r: Redis, task: string, permit: string, nowMs: int, leaseMs: int): Redis {
    if Grants(m, r, task, nowMs)
    then r.(queue := Zrem(Swept(m, r), {task}), markers := r.markers - {task}, permits := Unexpired(r.permits, nowMs)[permit := leaseMs])
    else r.(queue := Swept(m, r), permits := Unexpired(r.permits, nowMs))
  }

  function Next(m: nat, r: Redis, step: Step): Redis {
    match step
    case Enqueue(task, ttl) => if Alive(r, task) then r else Enqueued(r, task, ttl)
    case Claim(task, permit, nowMs, leaseMs) => Claimed(m, r, task, permit, nowMs, leaseMs)
    case Renew(permit, leaseMs) => if permit in r.permits then r.(permits := r.permits[permit := leaseMs]) else r
    case Release(permit) => r.(permits := r.permits - {permit})
    case DropEntry(task) => r.(queue := Zrem(r.queue, {task}))
    case DropMarker(task) => r.(markers := r.markers - {task})
    case Tick(ms) => r.(now := r.now + ms)
  }

  function Run(m: nat, r: Redis, steps: seq<Step>): Redis {
    if steps == [] then r else Next(m, Run(m, r, steps[..|steps| - 1]), steps[|steps| - 1])
  }

  // ---- The server, as the scripts change it ----

  class RedisStore {
    const maxConcurrent: nat
    var queue: seq<Entry>
    var markers: map<string, int>
    var permits: map<string, int>
    var sequence: nat
    var now: int

    function State(): Redis
      reads this
    {
      Redis(queue, markers, permits, sequence, now)
    }

    constructor (maxConcurrent: nat)
      ensures State() == EMPTY && this.maxConcurrent == maxConcurrent
    {
      this.maxConcurrent := maxConcurrent;
      queue, markers, permits, sequence, now := [], map[], map[], 0, 0;
    }

    method RunEnqueue(task: string, ttl: int) returns (added: bool)
      modifies this
      ensures State() == Next(maxConcurrent, old(State()), Enqueue(task, ttl))
      ensures added == !Alive(old(State()), task)
    {
      if task in markers && markers[task] > now {
        return false;
      }
      markers := markers[task := now + ttl * 1000];
      sequence := sequence + 1;
      queue := Zrem(queue, {task}) + [Entry(task, sequence)];
      return true;
    }

    /** The part of the claim script that drops the entries without a marker. */
    method Sweep(entries: seq<Entry>)
      modifies this`queue
      ensures queue == Zrem(old(queue), Dead(old(State()), entries))
    {
      ghost var r := State();
      ZremNothing(queue);
      assert Dead(r, entries[..0]) == {};
      for i := 0 to |entries|
        invariant queue == Zrem(r.queue, Dead(r, entries[..i]))
      {
        var member := entries[i].task;
        SweepOne(r, entries, i);
        if !(member in markers && markers[member] > now) {
          queue := Zrem(queue, {member});
        }
      }
      assert entries[..|entries|] == entries;
    }

    /** The claim script. */
    method RunClaim(task: string, permit: string, nowMs: int, leaseMs: int) returns (granted: bool)
      modifies this
      ensures State() == Next(maxConcurrent, old(State()), Claim(task, permit, nowMs, leaseMs))
      ensures granted == Grants(maxConcurrent, old(State()), task, nowMs)
    {
      Sweep(queue[..Window(maxConcurrent, queue)]);
      permits := map p | p in permits && permits[p] > nowMs :: permits[p];
      var rank := Zrank(queue, task);
      if rank == |queue| || rank >= maxConcurrent {
        return false;
      }
      if |permits| >= maxConcurrent {
        return false;
      }
      queue := Zrem(queue, {task});
      markers := markers - {task};
      permits := permits[permit := leaseMs];
      return true;
    }

    /** A command that is a step by itself. */
    method RunCommand(step: Step)
      requires !step.Enqueue? && !step.Claim?
      modifies this
      ensures State() == Next(maxConcurrent, old(State()), step)
    {
      match step
      case Renew(permit, leaseMs) =>
        if permit in permits {
          permits := permits[permit := leaseMs];
        }
      case Release(permit) => permits := permits - {permit};
      case DropEntry(task) => queue := Zrem(queue, {task});
      case DropMarker(task) => markers := markers - {task};
      case Tick(ms) => now := now + ms;
    }

    method Perform(steps: seq<Step>)
      modifies this
      ensures State() == Run(maxConcurrent, old(State()), steps)
    {
      for i := 0 to |steps|
        invariant State() == Run(maxConcurrent, old(State()), steps[..i])
      {
        assert steps[..i + 1][..i] == steps[..i];
        match steps[i]
        case Enqueue(task, ttl) => var _ := RunEnqueue(task, ttl);
        case Claim(task, permit, nowMs, leaseMs) => var _ := RunClaim(task, permit, nowMs, leaseMs);
        case _ => RunCommand(steps[i]);
      }
      assert steps[..|steps|] == steps;
    }
  }

  // ---- Facts about the commands ----

  lemma {:induction false} ZremNothing(q: seq<Entry>)
    ensures Zrem(q, {}) == q
  {
    if q != [] {
      ZremNothing(q[..|q| - 1]);
    }
  }

  lemma DeadSnoc(r: Redis, entries: seq<Entry>, i: nat)
    requires i < |entries|
    ensures Dead(r, entries[..i + 1]) == Dead(r, entries[..i]) + (if Alive(r, entries[i].task) then {} else {entries[i].task})
  {
    assert entries[..i + 1] == entries[..i] + [entries[i]];
    assert entries[i] in entries[..i + 1];
  }

  lemma SweepOne(r: Redis, entries: seq<Entry>, i: nat)
    requires i < |entries|
    ensures Zrem(r.queue, Dead(r, entries[..i + 1])) ==
            if Alive(r, entries[i].task) then Zrem(r.queue, Dead(r, entries[..i]))
            else Zrem(Zrem(r.queue, Dead(r, entries[..i])), {entries[i].task})
  {
    DeadSnoc(r, entries, i);
    ZremTwice(r.queue, Dead(r, entries[..i]), {entries[i].task});
    if Alive(r, entries[i].task) {
      assert Dead(r, entries[..i + 1]) == Dead(r, entries[..i]);
    }
  }

  lemma {:induction false} ZremTwice(q: seq<Entry>, a: set<string>, b: set<string>)
    ensures Zrem(Zrem(q, a), b) == Zrem(q, a + b)
  {
    if q != [] {
      var rest, last := Zrem(q[..|q| - 1], a), q[|q| - 1];
      ZremTwice(q[..|q| - 1], a, b);
      if last.task in a {
        assert Zrem(q, a) == rest;
      } else {
        assert Zrem(q, a) == rest + [last];
        assert (rest + [last])[..|rest|] == rest;
      }
    }
  }

  lemma {:induction false} ZremMembers(q: seq<Entry>, gone: set<string>, e: Entry)
    ensures e in Zrem(q, gone) <==> e in q && e.task !in gone
  {
    if q != [] {
      ZremMembers(q[..|q| - 1], gone, e);
      assert q == q[..|q| - 1] + [q[|q| - 1]];
    }
  }

  /** The entry at `k` has a score and a task that no earlier entry has, and the counter has reached its score. */
  ghost predicate InPlace(q: seq<Entry>, sequence: nat, k: nat)
    requires k < |q|
  {
    && q[k].score <= sequence
    && forall i | 0 <= i < k :: q[i].score < q[k].score && q[i].task != q[k].task
  }

  ghost predicate Ordered(q: seq<Entry>, sequence: nat) {
    forall k | 0 <= k < |q| :: InPlace(q, sequence, k)
  }

  lemma OrderedPrefix(q: seq<Entry>, sequence: nat, k: nat)
    requires Ordered(q, sequence) && k <= |q|
    ensures Ordered(q[..k], sequence)
  {
    forall i | 0 <= i < k
      ensures InPlace(q[..k], sequence, i)
    {
      assert InPlace(q, sequence, i);
    }
  }

  lemma OrderedSnoc(q: seq<Entry>, sequence: nat, last: Entry)
    requires Ordered(q, sequence) && last.score <= sequence
    requires forall e | e in q :: e.score < last.score && e.task != last.task
    ensures Ordered(q + [last], sequence)
  {
    forall i | 0 <= i < |q + [last]|
      ensures InPlace(q + [last], sequence, i)
    {
      if i < |q| {
        assert InPlace(q, sequence, i);
      }
    }
  }

  lemma Places(q: seq<Entry>, sequence: nat, i: nat, j: nat)
    requires Ordered(q, sequence) && i < j < |q|
    ensures q[i].score < q[j].score <= sequence && q[i].task != q[j].task
  {
    assert InPlace(q, sequence, j);
  }

  lemma LastIsNew(q: seq<Entry>, sequence: nat, e: Entry)
    requires q != [] && Ordered(q, sequence) && e in q[..|q| - 1]
    ensures e.score < q[|q| - 1].score <= sequence && e.task != q[|q| - 1].task
  {
    var i :| 0 <= i < |q| - 1 && q[..|q| - 1][i] == e;
    Places(q, sequence, i, |q| - 1);
  }

  lemma {:induction false} ZremOrdered(q: seq<Entry>, gone: set<string>, sequence: nat)
    requires Ordered(q, sequence)
    ensures Ordered(Zrem(q, gone), sequence)
  {
    if q != [] {
      var rest, last := q[..|q| - 1], q[|q| - 1];
      OrderedPrefix(q, sequence, |q| - 1);
      ZremOrdered(rest, gone, sequence);
      if last.task !in gone {
        forall e | e in Zrem(rest, gone)
          ensures e.score < last.score && e.task != last.task
        {
          ZremMembers(rest, gone, e);
          LastIsNew(q, sequence, e);
        }
        assert InPlace(q, sequence, |q| - 1);
        OrderedSnoc(Zrem(rest, gone), sequence, last);
      } else {
        assert Zrem(q, gone) == Zrem(rest, gone);
      }
    }
  }

  // ---- What every run keeps ----

  ghost predicate Sound(m: nat, r: Redis) {
    Ordered(r.queue, r.sequence) && |r.permits| <= m
  }

  lemma UnexpiredIsSmaller(permits: map<string, int>, nowMs: int)
    ensures |Unexpired(permits, nowMs)| <= |permits|
  {
    var some := Unexpired(permits, nowMs);
    assert some.Keys <= permits.Keys;
    SmallerSet(some.Keys, permits.Keys);
  }

  lemma ScoresAreGivenOut(q: seq<Entry>, sequence: nat, e: Entry)
    requires Ordered(q, sequence) && e in q
    ensures e.score <= sequence
  {
    var i :| 0 <= i < |q| && q[i] == e;
    assert InPlace(q, sequence, i);
  }

  lemma OrderedLater(q: seq<Entry>, sequence: nat, later: nat)
    requires Ordered(q, sequence) && sequence <= later
    ensures Ordered(q, later)
  {
    forall k | 0 <= k < |q|
      ensures InPlace(q, later, k)
    {
      assert InPlace(q, sequence, k);
    }
  }

  lemma EnqueuedIsOrdered(r: Redis, task: string, ttl: int)
    requires Ordered(r.queue, r.sequence)
    ensures Ordered(Enqueued(r, task, ttl).queue, r.sequence + 1)
  {
    ZremOrdered(r.queue, {task}, r.sequence);
    var rest := Zrem(r.queue, {task});
    forall e | e in rest
      ensures e.score <= r.sequence && e.task != task
    {
      ZremMembers(r.queue, {task}, e);
      ScoresAreGivenOut(rest, r.sequence, e);
    }
    OrderedLater(rest, r.sequence, r.sequence + 1);
    OrderedSnoc(rest, r.sequence + 1, Entry(task, r.sequence + 1));
  }

  lemma ClaimedIsSound(m: nat, r: Redis, task: string, permit: string, nowMs: int, leaseMs: int)
    requires Sound(m, r)
    ensures Sound(m, Claimed(m, r, task, permit, nowMs, leaseMs))
  {
    ZremOrdered(r.queue, Dead(r, r.queue[..Window(m, r.queue)]), r.sequence);
    ZremOrdered(Swept(m, r), {task}, r.sequence);
    ClaimedWithinLimit(m, r.permits, permit, nowMs, leaseMs);
  }

  lemma ClaimedWithinLimit(m: nat, permits: map<string, int>, permit: string, nowMs: int, leaseMs: int)
    requires |permits| <= m
    ensures var left := Unexpired(permits, nowMs);
            |left| <= m && (|left| < m ==> |left[permit := leaseMs]| <= m)
  {
    UnexpiredIsSmaller(permits, nowMs);
    var left := Unexpired(permits, nowMs);
    assert left[permit := leaseMs].Keys == left.Keys + {permit};
  }

  lemma NextIsSound(m: nat, r: Redis, step: Step)
    requires Sound(m, r)
    ensures Sound(m, Next(m, r, step))
  {
    match step
    case Enqueue(task, ttl) => EnqueuedIsOrdered(r, task, ttl);
    case Claim(task, permit, nowMs, leaseMs) => ClaimedIsSound(m, r, task, permit, nowMs, leaseMs);
    case Renew(permit, leaseMs) =>
      if permit in r.permits {
        assert r.permits[permit := leaseMs].Keys == r.permits.Keys;
      }
    case Release(permit) => SmallerSet((r.permits - {permit}).Keys, r.permits.Keys);
    case DropEntry(task) => ZremOrdered(r.queue, {task}, r.sequence);
    case _ =>
  }

  /** However the workers' commands and clocks interleave, at most `m` permits are out and the queue is in order. */
  lemma {:induction false} PermitsStayWithinLimit(m: nat, r: Redis, steps: seq<Step>)
    requires Sound(m, r)
    ensures Sound(m, EMPTY) && Sound(m, Run(m, r, steps))
  {
    if steps != [] {
      PermitsStayWithinLimit(m, r, steps[..|steps| - 1]);
      NextIsSound(m, Run(m, r, steps[..|steps| - 1]), steps[|steps| - 1]);
    }
  }

  // ---- A claim spares the living ----

  /** A claim takes nobody out of the queue but entries whose marker is gone and, when it succeeds, the claimer. */
  lemma ClaimSparesLiveWaiters(m: nat, r: Redis, task: string, permit: string, nowMs: int, leaseMs: int, e: Entry)
    requires Ordered(r.queue, r.sequence) && e in r.queue
    ensures var after := Claimed(m, r, task, permit, nowMs, leaseMs);
            && (Alive(r, e.task) && (e.task != task || !Grants(m, r, task, nowMs)) ==> e in after.queue && Alive(after, e.task))
            && (e.task == task && Grants(m, r, task, nowMs) ==> e !in after.queue && !Alive(after, task) && permit in after.permits)
  {
    ZremMembers(r.queue, Dead(r, r.queue[..Window(m, r.queue)]), e);
    ZremMembers(Swept(m, r), {task}, e);
  }

  lemma ClaimAddsNobody(m: nat, r: Redis, task: string, permit: string, nowMs: int, leaseMs: int, e: Entry)
    requires e in Claimed(m, r, task, permit, nowMs, leaseMs).queue
    ensures e in r.queue
  {
    ZremMembers(r.queue, Dead(r, r.queue[..Window(m, r.queue)]), e);
    ZremMembers(Swept(m, r), {task}, e);
  }

  // ---- Who is ahead ----

  ghost function Ahead(q: seq<Entry>, score: nat): set<Entry> {
    set e | e in q && e.score < score
  }

  ghost function LiveAhead(r: Redis, score: nat): set<Entry> {
    set e | e in Ahead(r.queue, score) && Alive(r, e.task)
  }

  ghost function StaleAhead(r: Redis, score: nat): set<Entry> {
    set e | e in Ahead(r.queue, score) && !Alive(r, e.task)
  }

  ghost function Members(q: seq<Entry>): set<Entry> {
    set e | e in q
  }

  lemma {:induction false} PrefixSize(q: seq<Entry>, sequence: nat, k: nat)
    requires Ordered(q, sequence) && k <= |q|
    ensures |Members(q[..k])| == k
  {
    if k > 0 {
      PrefixSize(q, sequence, k - 1);
      OrderedPrefix(q, sequence, k);
      assert q[..k][..k - 1] == q[..k - 1];
      if q[k - 1] in q[..k - 1] {
        LastIsNew(q[..k], sequence, q[k - 1]);
      }
      assert q[..k] == q[..k - 1] + [q[k - 1]];
      assert Members(q[..k]) == Members(q[..k - 1]) + {q[k - 1]};
    }
  }

  /** A rank is the number of entries with a smaller score. */
  lemma RankCountsAhead(q: seq<Entry>, sequence: nat, k: nat)
    requires Ordered(q, sequence) && k < |q|
    ensures |Ahead(q, q[k].score)| == k
  {
    PrefixSize(q, sequence, k);
    PrefixIsAhead(q, sequence, k);
  }

  lemma PrefixIsAhead(q: seq<Entry>, sequence: nat, k: nat)
    requires Ordered(q, sequence) && k < |q|
    ensures Ahead(q, q[k].score) == Members(q[..k])
  {
    forall e | e in Ahead(q, q[k].score)
      ensures e in q[..k]
    {
      var i :| 0 <= i < |q| && q[i] == e;
      if k < i {
        Places(q, sequence, k, i);
      }
      assert q[..k][i] == e;
    }
    forall e | e in q[..k]
      ensures e in Ahead(q, q[k].score)
    {
      var i :| 0 <= i < k && q[..k][i] == e;
      Places(q, sequence, i, k);
    }
  }

  /** Where a task is after the sweep: it keeps its entry, and its rank is what is left ahead of it. */
  lemma SweptRank(m: nat, r: Redis, e: Entry)
    requires Ordered(r.queue, r.sequence) && e in Swept(m, r)
    ensures Zrank(Swept(m, r), e.task) == |Ahead(Swept(m, r), e.score)| < |Swept(m, r)|
  {
    var swept := Swept(m, r);
    ZremOrdered(r.queue, Dead(r, r.queue[..Window(m, r.queue)]), r.sequence);
    var i :| 0 <= i < |swept| && swept[i] == e;
    var k := Zrank(swept, e.task);
    if k < i {
      Places(swept, r.sequence, k, i);
    }
    RankCountsAhead(swept, r.sequence, k);
  }

  lemma SweptKeepsTheLiving(m: nat, r: Redis, score: nat)
    ensures LiveAhead(r, score) <= Ahead(Swept(m, r), score) <= Ahead(r.queue, score)
  {
    forall e: Entry
      ensures e in Swept(m, r) ==> e in r.queue
      ensures e in r.queue && Alive(r, e.task) ==> e in Swept(m, r)
    {
      ZremMembers(r.queue, Dead(r, r.queue[..Window(m, r.queue)]), e);
    }
  }

  /** Who is granted waits in the queue with fewer than `m` live waiters before it, and a permit is free. */
  lemma GrantIsFair(m: nat, r: Redis, task: string, nowMs: int)
    requires Ordered(r.queue, r.sequence) && Grants(m, r, task, nowMs)
    ensures exists e :: e in r.queue && e.task == task && |LiveAhead(r, e.score)| < m
    ensures |Unexpired(r.permits, nowMs)| < m
  {
    var swept := Swept(m, r);
    var e := swept[Zrank(swept, task)];
    assert e in swept;
    ZremMembers(r.queue, Dead(r, r.queue[..Window(m, r.queue)]), e);
    SweptRank(m, r, e);
    SweptKeepsTheLiving(m, r, e.score);
    SmallerSet(LiveAhead(r, e.score), Ahead(swept, e.score));
  }

  lemma NextPutsNobodyAhead(m: nat, r: Redis, step: Step, e: Entry)
    requires e.score <= r.sequence && e in Next(m, r, step).queue
    ensures e in r.queue
  {
    match step
    case Enqueue(task, ttl) => ZremMembers(r.queue, {task}, e);
    case Claim(task, permit, nowMs, leaseMs) => ClaimAddsNobody(m, r, task, permit, nowMs, leaseMs, e);
    case DropEntry(task) => ZremMembers(r.queue, {task}, e);
    case _ =>
  }

  /** Nobody gets in front of a waiter: over any run, those ahead of a given place were ahead of it before. */
  lemma AheadNeverGrows(m: nat, r: Redis, steps: seq<Step>, score: nat)
    requires score <= r.sequence
    ensures Ahead(Run(m, r, steps).queue, score) <= Ahead(r.queue, score)
    ensures score <= Run(m, r, steps).sequence
  {
    SequenceNeverFalls(m, r, steps);
    forall e | e in Ahead(Run(m, r, steps).queue, score)
      ensures e in r.queue
    {
      EarlierWasThere(m, r, steps, e);
    }
  }

  lemma {:induction false} SequenceNeverFalls(m: nat, r: Redis, steps: seq<Step>)
    ensures r.sequence <= Run(m, r, steps).sequence
  {
    if steps != [] {
      SequenceNeverFalls(m, r, steps[..|steps| - 1]);
      NextSequence(m, Run(m, r, steps[..|steps| - 1]), steps[|steps| - 1]);
    }
  }

  lemma NextSequence(m: nat, r: Redis, step: Step)
    ensures r.sequence <= Next(m, r, step).sequence
  {}

  lemma {:induction false} EarlierWasThere(m: nat, r: Redis, steps: seq<Step>, e: Entry)
    requires e.score <= r.sequence && e in Run(m, r, steps).queue
    ensures e in r.queue
  {
    if steps != [] {
      var before := Run(m, r, steps[..|steps| - 1]);
      SequenceNeverFalls(m, r, steps[..|steps| - 1]);
      NextPutsNobodyAhead(m, before, steps[|steps| - 1], e);
      EarlierWasThere(m, r, steps[..|steps| - 1], e);
    }
  }

  // ---- When exactly a claim is granted ----

  /** A waiter inside the window: its marker must be alive and fewer than `m` living ahead of it. */
  lemma GrantInsideWindow(m: nat, r: Redis, k: nat, nowMs: int)
    requires Ordered(r.queue, r.sequence) && k < Window(m, r.queue)
    ensures var e := r.queue[k];
            Grants(m, r, e.task, nowMs) <==>
            Alive(r, e.task) && |LiveAhead(r, e.score)| < m && |Unexpired(r.permits, nowMs)| < m
  {
    var e, n := r.queue[k], Window(m, r.queue);
    var gone := Dead(r, r.queue[..n]);
    assert r.queue[..n][k] == e;
    ZremMembers(r.queue, gone, e);
    if Alive(r, e.task) {
      assert e.task !in gone;
      SweptRank(m, r, e);
      InsideTheWindow(m, r, k);
    } else {
      assert e.task in gone;
      var i := Zrank(Swept(m, r), e.task);
      if i < |Swept(m, r)| {
        assert Swept(m, r)[i] in Swept(m, r);
        ZremMembers(r.queue, gone, Swept(m, r)[i]);
      }
    }
  }

  lemma InsideTheWindow(m: nat, r: Redis, k: nat)
    requires Ordered(r.queue, r.sequence) && k < |r.queue| && k <= Window(m, r.queue)
    ensures Ahead(Swept(m, r), r.queue[k].score) == LiveAhead(r, r.queue[k].score)
  {
    var e, n := r.queue[k], Window(m, r.queue);
    SweptKeepsTheLiving(m, r, e.score);
    PrefixIsAhead(r.queue, r.sequence, k);
    forall f | f in Ahead(Swept(m, r), e.score)
      ensures Alive(r, f.task)
    {
      ZremMembers(r.queue, Dead(r, r.queue[..n]), f);
      var i :| 0 <= i < k && r.queue[..k][i] == f;
      assert r.queue[..n][i] == f;
    }
  }

  /**
   * A waiter beyond the window is granted whether or not its own marker is alive:
   * what counts is how many of the entries before it the sweep leaves.
   */
  lemma GrantBeyondWindow(m: nat, r: Redis, k: nat, nowMs: int)
    requires Ordered(r.queue, r.sequence) && m + 17 <= k < |r.queue|
    ensures Grants(m, r, r.queue[k].task, nowMs) <==>
            k - |Dead(r, r.queue[..m + 17])| < m && |Unexpired(r.permits, nowMs)| < m
  {
    var q, n, e := r.queue, m + 17, r.queue[k];
    var gone := Dead(r, q[..n]);
    DeadAreEarlier(r, n, k);
    ZremMembers(q, gone, e);
    SweptRank(m, r, e);
    SweptLosesTheDead(m, r, k);
  }

  lemma DeadAreEarlier(r: Redis, n: nat, k: nat)
    requires Ordered(r.queue, r.sequence) && n <= k < |r.queue|
    ensures r.queue[k].task !in Dead(r, r.queue[..n])
  {
    forall i | 0 <= i < n
      ensures r.queue[..n][i].task != r.queue[k].task
    {
      Places(r.queue, r.sequence, i, k);
    }
  }

  lemma SweptLosesTheDead(m: nat, r: Redis, k: nat)
    requires Ordered(r.queue, r.sequence) && m + 17 <= k < |r.queue|
    ensures |Ahead(Swept(m, r), r.queue[k].score)| == k - |Dead(r, r.queue[..m + 17])|
  {
    var score, dead := r.queue[k].score, DeadEntries(r, r.queue[..m + 17]);
    SweptAheadBeyond(m, r, k, score, dead);
    RankCountsAhead(r.queue, r.sequence, k);
    DeadInPrefix(r, m + 17);
    Remainder(Ahead(r.queue, score), dead);
  }

  lemma SweptAheadBeyond(m: nat, r: Redis, k: nat, score: nat, dead: set<Entry>)
    requires Ordered(r.queue, r.sequence) && m + 17 <= k < |r.queue|
    requires score == r.queue[k].score && dead == DeadEntries(r, r.queue[..m + 17])
    ensures Ahead(Swept(m, r), score) == Ahead(r.queue, score) - dead && dead <= Ahead(r.queue, score)
  {
    SweptAhead(m, r, score);
    DroppedAreAhead(r, m + 17, k);
  }

  lemma DroppedAreAhead(r: Redis, n: nat, k: nat)
    requires Ordered(r.queue, r.sequence) && n <= k < |r.queue|
    ensures DeadEntries(r, r.queue[..n]) <= Ahead(r.queue, r.queue[k].score)
  {
    var q := r.queue;
    PrefixIsAhead(q, r.sequence, k);
    assert q[..n] == q[..k][..n];
  }

  lemma Remainder(a: set<Entry>, b: set<Entry>)
    requires b <= a
    ensures |a - b| == |a| - |b|
  {
    assert a == (a - b) + b;
  }

  lemma SweptAhead(m: nat, r: Redis, score: nat)
    requires Ordered(r.queue, r.sequence)
    ensures Ahead(Swept(m, r), score) == Ahead(r.queue, score) - DeadEntries(r, r.queue[..Window(m, r.queue)])
  {
    var n := Window(m, r.queue);
    forall f: Entry
      ensures f in Swept(m, r) <==> f in r.queue && f !in DeadEntries(r, r.queue[..n])
    {
      ZremMembers(r.queue, Dead(r, r.queue[..n]), f);
      if f in r.queue {
        DeadByTask(r, n, f);
      }
    }
  }

  ghost function DeadEntries(r: Redis, window: seq<Entry>): set<Entry> {
    set f | f in window && !Alive(r, f.task)
  }

  lemma DeadByTask(r: Redis, n: nat, f: Entry)
    requires Ordered(r.queue, r.sequence) && n <= |r.queue| && f in r.queue
    ensures f.task in Dead(r, r.queue[..n]) <==> f in DeadEntries(r, r.queue[..n])
  {
    var q := r.queue;
    if f.task in Dead(r, q[..n]) {
      var i :| 0 <= i < n && q[..n][i].task == f.task;
      var j :| 0 <= j < |q| && q[j] == f;
      if i < j {
        Places(q, r.sequence, i, j);
      } else if j < i {
        Places(q, r.sequence, j, i);
      }
      assert q[..n][i] == f;
    }
  }

  lemma {:induction false} DeadOnce(r: Redis, window: seq<Entry>, sequence: nat)
    requires Ordered(window, sequence)
    ensures |DeadEntries(r, window)| == |Dead(r, window)|
  {
    if window != [] {
      var n := |window| - 1;
      OrderedPrefix(window, sequence, n);
      DeadOnce(r, window[..n], sequence);
      DeadEntriesSnoc(r, window, sequence);
      assert window[..n + 1] == window;
      DeadSnoc(r, window, n);
      if !Alive(r, window[n].task) {
        DeadIsNew(r, window, sequence);
      }
    }
  }

  lemma DeadInPrefix(r: Redis, n: nat)
    requires Ordered(r.queue, r.sequence) && n <= |r.queue|
    ensures |DeadEntries(r, r.queue[..n])| == |Dead(r, r.queue[..n])|
  {
    OrderedPrefix(r.queue, r.sequence, n);
    DeadOnce(r, r.queue[..n], r.sequence);
  }

  lemma DeadIsNew(r: Redis, window: seq<Entry>, sequence: nat)
    requires Ordered(window, sequence) && window != []
    ensures window[|window| - 1].task !in Dead(r, window[..|window| - 1])
  {
    var n := |window| - 1;
    forall i | 0 <= i < n
      ensures window[..n][i].task != window[n].task
    {
      LastIsNew(window, sequence, window[..n][i]);
    }
  }

  lemma DeadEntriesSnoc(r: Redis, window: seq<Entry>, sequence: nat)
    requires Ordered(window, sequence) && window != []
    ensures var n := |window| - 1;
            && DeadEntries(r, window) == DeadEntries(r, window[..n]) + (if Alive(r, window[n].task) then {} else {window[n]})
            && window[n] !in DeadEntries(r, window[..n])
  {
    var n := |window| - 1;
    assert window == window[..n] + [window[n]];
    if window[n] in window[..n] {
      LastIsNew(window, sequence, window[n]);
    }
  }

  /** When everybody in the window is stale, the next entry is granted although its own marker is gone too. */
  lemma ExpiredWaiterIsGranted(m: nat, r: Redis, nowMs: int)
    requires Ordered(r.queue, r.sequence) && |r.queue| > m + 17 && m >= 1
    requires |Unexpired(r.permits, nowMs)| < m
    requires forall e | e in r.queue :: !Alive(r, e.task)
    ensures Grants(m, r, r.queue[m + 17].task, nowMs) && !Alive(r, r.queue[m + 17].task)
  {
    var n := m + 17;
    PrefixSize(r.queue, r.sequence, n);
    DeadInPrefix(r, n);
    assert DeadEntries(r, r.queue[..n]) == Members(r.queue[..n]) by {
      assert forall e | e in r.queue[..n] :: e in r.queue;
    }
    GrantBeyondWindow(m, r, n, nowMs);
  }

  // ---- Progress ----

  /** The waiter claims again and again while nothing else changes. */
  function Retries(m: nat, r: Redis, task: string, permit: string, clocks: seq<(int, int)>): Redis {
    if clocks == [] then r
    else
      var before := Retries(m, r, task, permit, clocks[..|clocks| - 1]);
      var (nowMs, leaseMs) := clocks[|clocks| - 1];
      Claimed(m, before, task, permit, nowMs, leaseMs)
  }

  predicate GrantedAt(m: nat, r: Redis, task: string, permit: string, clocks: seq<(int, int)>, i: nat)
    requires i < |clocks|
  {
    Grants(m, Retries(m, r, task, permit, clocks[..i]), task, clocks[i].0)
  }

  /** A waiter that only stale entries and permits could hold back. */
  ghost predicate Eligible(m: nat, r: Redis, e: Entry) {
    && Ordered(r.queue, r.sequence) && e in r.queue && Alive(r, e.task)
    && |LiveAhead(r, e.score)| < m
  }

  /**
   * A claim of an eligible waiter that is refused although a permit is free removes at least eighteen stale
   * entries ahead of it, and it stays eligible.
   */
  lemma RefusalPurges(m: nat, r: Redis, e: Entry, permit: string, nowMs: int, leaseMs: int)
    requires Eligible(m, r, e) && |Unexpired(r.permits, nowMs)| < m && !Grants(m, r, e.task, nowMs)
    ensures var after := Claimed(m, r, e.task, permit, nowMs, leaseMs);
            Eligible(m, after, e) && |StaleAhead(after, e.score)| + 18 <= |StaleAhead(r, e.score)|
  {
    var after := Claimed(m, r, e.task, permit, nowMs, leaseMs);
    ClaimSparesLiveWaiters(m, r, e.task, permit, nowMs, leaseMs, e);
    ZremOrdered(r.queue, Dead(r, r.queue[..Window(m, r.queue)]), r.sequence);
    SweptKeepsTheLiving(m, r, e.score);
    assert LiveAhead(after, e.score) == LiveAhead(r, e.score);
    var k :| 0 <= k < |r.queue| && r.queue[k] == e;
    if k < Window(m, r.queue) {
      GrantInsideWindow(m, r, k, nowMs);
      assert false;
    }
    SweptLosesTheDead(m, r, k);
    GrantBeyondWindow(m, r, k, nowMs);
    Split(r, e.score);
    Split(after, e.score);
    RankCountsAhead(r.queue, r.sequence, k);
    assert after.queue == Swept(m, r);
    WindowIsMostlyStale(m, r, k);
  }

  lemma Split(r: Redis, score: nat)
    ensures |Ahead(r.queue, score)| == |LiveAhead(r, score)| + |StaleAhead(r, score)|
  {
    assert Ahead(r.queue, score) == LiveAhead(r, score) + StaleAhead(r, score);
  }

  lemma WindowIsMostlyStale(m: nat, r: Redis, k: nat)
    requires Ordered(r.queue, r.sequence) && m + 17 <= k < |r.queue|
    requires |LiveAhead(r, r.queue[k].score)| < m
    ensures |Dead(r, r.queue[..m + 17])| >= 18
  {
    var window := r.queue[..m + 17];
    LiveWindowIsAhead(r, m + 17, k);
    Outnumbered(Members(window), DeadEntries(r, window), LiveAhead(r, r.queue[k].score));
    PrefixSize(r.queue, r.sequence, m + 17);
    DeadInPrefix(r, m + 17);
  }

  lemma Outnumbered(all: set<Entry>, dead: set<Entry>, live: set<Entry>)
    requires dead <= all && all - dead <= live
    ensures |all| <= |dead| + |live|
  {
    SmallerSet(all - dead, live);
    Remainder(all, dead);
  }

  lemma LiveWindowIsAhead(r: Redis, n: nat, k: nat)
    requires Ordered(r.queue, r.sequence) && n <= k < |r.queue|
    ensures Members(r.queue[..n]) - DeadEntries(r, r.queue[..n]) <= LiveAhead(r, r.queue[k].score)
  {
    var q := r.queue;
    PrefixIsAhead(q, r.sequence, k);
    assert q[..n] == q[..k][..n];
  }

  /** After refusals only permits that were there before are left. */
  lemma {:induction false} RefusalsAddNoPermit(m: nat, r: Redis, task: string, permit: string, clocks: seq<(int, int)>, nowMs: int)
    requires forall i | 0 <= i < |clocks| :: !GrantedAt(m, r, task, permit, clocks, i)
    ensures |Unexpired(Retries(m, r, task, permit, clocks).permits, nowMs)| <= |Unexpired(r.permits, nowMs)|
  {
    if clocks != [] {
      var n := |clocks| - 1;
      RefusedBefore(m, r, task, permit, clocks, clocks[..n]);
      RefusalsAddNoPermit(m, r, task, permit, clocks[..n], nowMs);
      assert !GrantedAt(m, r, task, permit, clocks, n);
      UnexpiredTwice(Retries(m, r, task, permit, clocks[..n]).permits, clocks[n].0, nowMs);
    }
  }

  lemma UnexpiredTwice(permits: map<string, int>, a: int, b: int)
    ensures |Unexpired(Unexpired(permits, a), b)| <= |Unexpired(permits, b)|
  {
    SmallerSet(Unexpired(Unexpired(permits, a), b).Keys, Unexpired(permits, b).Keys);
  }

  lemma RefusedBefore(m: nat, r: Redis, task: string, permit: string, clocks: seq<(int, int)>, earlier: seq<(int, int)>)
    requires clocks != [] && earlier == clocks[..|clocks| - 1]
    requires forall i | 0 <= i < |clocks| :: !GrantedAt(m, r, task, permit, clocks, i)
    ensures forall i | 0 <= i < |earlier| :: !GrantedAt(m, r, task, permit, earlier, i)
  {
    forall i | 0 <= i < |earlier|
      ensures !GrantedAt(m, r, task, permit, earlier, i)
    {
      assert earlier[..i] == clocks[..i];
      assert !GrantedAt(m, r, task, permit, clocks, i);
    }
  }

  lemma {:induction false} RefusalsPurge(m: nat, r: Redis, e: Entry, permit: string, clocks: seq<(int, int)>)
    requires Eligible(m, r, e) && forall c | c in clocks :: |Unexpired(r.permits, c.0)| < m
    requires forall i | 0 <= i < |clocks| :: !GrantedAt(m, r, e.task, permit, clocks, i)
    ensures var after := Retries(m, r, e.task, permit, clocks);
            Eligible(m, after, e) && |StaleAhead(after, e.score)| + 18 * |clocks| <= |StaleAhead(r, e.score)|
  {
    if clocks != [] {
      var n := |clocks| - 1;
      RefusedBefore(m, r, e.task, permit, clocks, clocks[..n]);
      RefusalsPurge(m, r, e, permit, clocks[..n]);
      RefusalsAddNoPermit(m, r, e.task, permit, clocks[..n], clocks[n].0);
      assert clocks[n] in clocks;
      assert !GrantedAt(m, r, e.task, permit, clocks, n);
      RefusalPurges(m, Retries(m, r, e.task, permit, clocks[..n]), e, permit, clocks[n].0, clocks[n].1);
    }
  }

  /**
   * While a permit is free at the times of its claims, an eligible waiter is granted by one of the next ones:
   * at most one more than an eighteenth of the stale entries ahead of it.
   */
  lemma EligibleIsGranted(m: nat, r: Redis, e: Entry, permit: string, clocks: seq<(int, int)>)
    requires Eligible(m, r, e) && forall c | c in clocks :: |Unexpired(r.permits, c.0)| < m
    requires |clocks| > |StaleAhead(r, e.score)| / 18
    ensures exists i :: 0 <= i <= |StaleAhead(r, e.score)| / 18 && GrantedAt(m, r, e.task, permit, clocks, i)
  {
    var n := |StaleAhead(r, e.score)| / 18 + 1;
    if forall i | 0 <= i < n :: !GrantedAt(m, r, e.task, permit, clocks, i) {
      forall i | 0 <= i < n
        ensures !GrantedAt(m, r, e.task, permit, clocks[..n], i)
      {
        assert clocks[..n][..i] == clocks[..i];
        assert !GrantedAt(m, r, e.task, permit, clocks, i);
      }
      RefusalsPurge(m, r, e, permit, clocks[..n]);
    }
  }

  // ---- One request ----

  datatype Outcome = Granted | Cancelled | TimedOut | Unavailable

  /**
   * How a request to the server ends: answered, its connection fails, or the request's own task is cancelled;
   * in the last two cases the script may have run.
   */
  datatype Fate = Answered | Failed(reached: bool) | CutOff(reached: bool)

  predicate Runs(fate: Fate) {
    fate.Answered? || fate.reached
  }

  /**
   * One turn of the loop: what others do before the claim, what the checks find, the claim, and what others do
   * after it; `between` is what they do between the two commands that remove the waiter.
   */
  datatype Poll = Poll(
    before: seq<Step>, closing: bool, unavailable: bool, shouldCancel: bool, expired: bool,
    nowMs: int, leaseMs: int, fate: Fate, after: seq<Step>, between: seq<Step>)

  predicate Claims(p: Poll) {
    !p.closing && !p.unavailable && !p.shouldCancel && !p.expired && Runs(p.fate)
  }

  /** The claim of this turn runs and takes a permit. */
  predicate Takes(m: nat, r: Redis, task: string, p: Poll) {
    Claims(p) && Grants(m, Run(m, r, p.before), task, p.nowMs)
  }

  predicate GoesOn(m: nat, r: Redis, task: string, p: Poll) {
    Claims(p) && p.fate.Answered? && !Takes(m, r, task, p)
  }

  /** How a turn ends the request. */
  function Ending(p: Poll): Outcome {
    if p.closing || p.unavailable then Unavailable
    else if p.shouldCancel then Cancelled
    else if p.expired then TimedOut
    else match p.fate case Answered => Granted case Failed(_) => Unavailable case CutOff(_) => Cancelled
  }

  /** The state in which turn `i` begins, all earlier turns having gone on. */
  function AtTurn(m: nat, r: Redis, task: string, permit: string, polls: seq<Poll>, i: nat): Redis
    requires i <= |polls|
  {
    if i == 0 then r
    else
      AfterTurn(m, AtTurn(m, r, task, permit, polls, i - 1), task, permit, polls[i - 1])
  }

  /** The state after a turn whose claim has run. */
  function AfterTurn(m: nat, r: Redis, task: string, permit: string, p: Poll): Redis {
    Run(m, Claimed(m, Run(m, r, p.before), task, permit, p.nowMs, p.leaseMs), p.after)
  }

  /** Other requests have other permits, and nobody joins under this id while its waiter is being removed. */
  ghost predicate Foreign(steps: seq<Step>, permit: string) {
    forall s | s in steps :: (s.Claim? || s.Renew? || s.Release?) ==> s.permit != permit
  }

  ghost predicate ForeignPoll(p: Poll, task: string, permit: string) {
    && Foreign(p.before, permit) && Foreign(p.after, permit) && Foreign(p.between, permit)
    && forall s | s in p.between :: s.Enqueue? ==> s.task != task
  }

  /** Some claim is late enough to evict a permit with this deadline. */
  ghost predicate Evicting(steps: seq<Step>, leaseMs: int) {
    exists s :: s in steps && s.Claim? && s.nowMs >= leaseMs
  }

  /** Others do not give a request a permit, and take one away exactly by a late claim. */
  lemma {:induction false} OthersAndPermit(m: nat, r: Redis, steps: seq<Step>, permit: string)
    requires Foreign(steps, permit)
    ensures permit in Run(m, r, steps).permits <==> permit in r.permits && !Evicting(steps, r.permits[permit])
    ensures permit in Run(m, r, steps).permits ==> Run(m, r, steps).permits[permit] == r.permits[permit]
  {
    if steps != [] {
      var init, last := steps[..|steps| - 1], steps[|steps| - 1];
      assert last in steps;
      assert Foreign(init, permit);
      OthersAndPermit(m, r, init, permit);
      OtherAndPermit(m, Run(m, r, init), last, permit);
      if permit in r.permits {
        EvictingSnoc(init, last, r.permits[permit]);
      }
      assert steps == init + [last];
    }
  }

  lemma EvictingSnoc(steps: seq<Step>, last: Step, leaseMs: int)
    ensures Evicting(steps + [last], leaseMs) <==> Evicting(steps, leaseMs) || (last.Claim? && last.nowMs >= leaseMs)
  {
    if Evicting(steps, leaseMs) {
      var s :| s in steps && s.Claim? && s.nowMs >= leaseMs;
      assert s in steps + [last];
    }
    if last.Claim? && last.nowMs >= leaseMs {
      assert last in steps + [last];
    }
  }

  lemma OtherAndPermit(m: nat, r: Redis, s: Step, permit: string)
    requires (s.Claim? || s.Renew? || s.Release?) ==> s.permit != permit
    ensures permit in Next(m, r, s).permits <==> permit in r.permits && !(s.Claim? && s.nowMs >= r.permits[permit])
    ensures permit in Next(m, r, s).permits ==> Next(m, r, s).permits[permit] == r.permits[permit]
  {}

  /** Nobody waits under this id and its marker is gone. */
  ghost predicate Left(r: Redis, task: string) {
    Absent(r, task) && task !in r.markers
  }

  ghost predicate Absent(r: Redis, task: string) {
    forall e | e in r.queue :: e.task != task
  }

  lemma {:induction false} StaysAbsent(m: nat, r: Redis, steps: seq<Step>, task: string)
    requires Absent(r, task) && forall s | s in steps :: s.Enqueue? ==> s.task != task
    ensures Absent(Run(m, r, steps), task)
  {
    if steps != [] {
      var init, last := steps[..|steps| - 1], steps[|steps| - 1];
      assert last in steps;
      StaysAbsent(m, r, init, task);
      var before := Run(m, r, init);
      forall e | e in Next(m, before, last).queue
        ensures e.task != task
      {
        NextQueue(m, before, last, e);
      }
    }
  }

  /** Only joining puts an entry into the queue. */
  lemma NextQueue(m: nat, r: Redis, step: Step, e: Entry)
    requires e in Next(m, r, step).queue
    ensures e in r.queue || (step.Enqueue? && step.task == e.task)
  {
    match step
    case Enqueue(task, ttl) => ZremMembers(r.queue, {task}, e);
    case Claim(task, permit, nowMs, leaseMs) => ClaimAddsNobody(m, r, task, permit, nowMs, leaseMs, e);
    case DropEntry(task) => ZremMembers(r.queue, {task}, e);
    case _ =>
  }

  /** The two commands that remove a waiter, with other workers in between. */
  method RemoveWaiter(store: RedisStore, task: string, between: seq<Step>)
    requires Sound(store.maxConcurrent, store.State())
    requires forall s | s in between :: s.Enqueue? ==> s.task != task
    modifies store
    ensures Sound(store.maxConcurrent, store.State()) && Left(store.State(), task)
    ensures store.permits == Run(store.maxConcurrent, Next(store.maxConcurrent, old(store.State()), DropEntry(task)), between).permits
  {
    ghost var m, r := store.maxConcurrent, store.State();
    NextIsSound(m, r, DropEntry(task));
    store.RunCommand(DropEntry(task));
    AbsentAfterDrop(m, r, task);
    PermitsStayWithinLimit(m, store.State(), between);
    StaysAbsent(m, store.State(), between, task);
    store.Perform(between);
    NextIsSound(m, store.State(), DropMarker(task));
    store.RunCommand(DropMarker(task));
  }

  lemma AbsentAfterDrop(m: nat, r: Redis, task: string)
    ensures Absent(Next(m, r, DropEntry(task)), task) && Next(m, r, DropEntry(task)).permits == r.permits
  {
    forall e | e in Zrem(r.queue, {task})
      ensures e.task != task
    {
      ZremMembers(r.queue, {task}, e);
    }
  }

  /** Leaving keeps a permit exactly when no claim in between evicts it. */
  method Leave(store: RedisStore, task: string, permit: string, between: seq<Step>)
    requires Sound(store.maxConcurrent, store.State()) && Foreign(between, permit)
    requires forall s | s in between :: s.Enqueue? ==> s.task != task
    modifies store
    ensures Sound(store.maxConcurrent, store.State()) && Left(store.State(), task)
    ensures permit in store.permits <==> permit in old(store.permits) && !Evicting(between, old(store.permits)[permit])
  {
    ghost var m, r := store.maxConcurrent, store.State();
    AbsentAfterDrop(m, r, task);
    OthersAndPermit(m, Next(m, r, DropEntry(task)), between, permit);
    RemoveWaiter(store, task, between);
  }

  /** What others do after a claim has taken the permit until the request has ended. */
  function Aftermath(p: Poll): seq<Step> {
    p.after + (if Ending(p) == Granted then [] else p.between)
  }

  /** One turn of the loop. */
  method TakePoll(store: RedisStore, task: string, permit: string, p: Poll) returns (ended: bool, outcome: Outcome)
    requires Sound(store.maxConcurrent, store.State()) && permit !in store.permits && ForeignPoll(p, task, permit)
    modifies store
    ensures Sound(store.maxConcurrent, store.State())
    ensures ended == !GoesOn(store.maxConcurrent, old(store.State()), task, p)
    ensures !ended ==>
              && permit !in store.permits
              && store.State() == AfterTurn(store.maxConcurrent, old(store.State()), task, permit, p)
    ensures ended ==>
              && outcome == Ending(p)
              && (outcome != Granted ==> Left(store.State(), task))
              && (permit in store.permits <==>
                    Takes(store.maxConcurrent, old(store.State()), task, p) && !Evicting(Aftermath(p), p.leaseMs))
  {
    ghost var m := store.maxConcurrent;
    PermitsStayWithinLimit(m, store.State(), p.before);
    OthersAndPermit(m, store.State(), p.before, permit);
    store.Perform(p.before);
    var granted := false;
    if Claims(p) {
      granted := Claim(store, task, permit, p);
    }
    if Claims(p) && p.fate.Answered? {
      assert granted ==> Aftermath(p) == p.after;
      return granted, Granted;
    }
    ghost var kept := permit in store.permits;
    Leave(store, task, permit, p.between);
    EvictingEither(p.after, p.between, p.leaseMs);
    return true, Ending(p);
  }

  lemma EvictingEither(a: seq<Step>, b: seq<Step>, leaseMs: int)
    ensures Evicting(a + b, leaseMs) <==> Evicting(a, leaseMs) || Evicting(b, leaseMs)
  {
    if Evicting(a, leaseMs) {
      var s :| s in a && s.Claim? && s.nowMs >= leaseMs;
      assert s in a + b;
    }
    if Evicting(b, leaseMs) {
      var s :| s in b && s.Claim? && s.nowMs >= leaseMs;
      assert s in a + b;
    }
  }

  /** The claim of one turn and what others do before its end is known. */
  method Claim(store: RedisStore, task: string, permit: string, p: Poll) returns (granted: bool)
    requires Sound(store.maxConcurrent, store.State()) && permit !in store.permits && Foreign(p.after, permit)
    modifies store
    ensures Sound(store.maxConcurrent, store.State())
    ensures granted == Grants(store.maxConcurrent, old(store.State()), task, p.nowMs)
    ensures store.State() == Run(store.maxConcurrent,
                                 Claimed(store.maxConcurrent, old(store.State()), task, permit, p.nowMs, p.leaseMs), p.after)
    ensures permit in store.permits <==> granted && !Evicting(p.after, p.leaseMs)
    ensures permit in store.permits ==> store.permits[permit] == p.leaseMs
  {
    ghost var m, r := store.maxConcurrent, store.State();
    NextIsSound(m, r, Step.Claim(task, permit, p.nowMs, p.leaseMs));
    granted := store.RunClaim(task, permit, p.nowMs, p.leaseMs);
    ghost var claimed := store.State();
    PermitsStayWithinLimit(m, claimed, p.after);
    OthersAndPermit(m, claimed, p.after, permit);
    store.Perform(p.after);
  }

  /**
   * A request under cluster admission, with other workers acting at every wait. `turn` is the turn in which it
   * ended, its task being cancelled when the turns are over. It ends holding its permit exactly when the claim of that
   * turn ran and was granted, whether or not the reply arrived, and no other claim has evicted the permit since.
   * A request that joined and is not granted has left the queue exactly when it learned that it had joined.
   */
  method AcquireDistributed(store: RedisStore, task: string, permit: string, ttl: int, join: Fate, polls: seq<Poll>)
    returns (outcome: Outcome, turn: nat)
    requires Sound(store.maxConcurrent, store.State())
    requires permit !in store.permits && forall p | p in polls :: ForeignPoll(p, task, permit)
    modifies store
    ensures Sound(store.maxConcurrent, store.State())
    ensures !Runs(join) ==> store.State() == old(store.State())
    ensures Runs(join) && Alive(old(store.State()), task) ==> store.State() == old(store.State())
    ensures !join.Answered? ==>
              && outcome == (if join.Failed? then Unavailable else Cancelled)
              && (Runs(join) ==> store.State() == Next(store.maxConcurrent, old(store.State()), Enqueue(task, ttl)))
    ensures join.Answered? && Alive(old(store.State()), task) ==> outcome == Unavailable
    ensures Runs(join) && !Alive(old(store.State()), task) && outcome != Granted ==> (Left(store.State(), task) <==> join.Answered?)
    ensures join.Answered? && !Alive(old(store.State()), task) ==>
              EndsAt(store.maxConcurrent, Enqueued(old(store.State()), task, ttl), task, permit, polls, turn, outcome, permit in store.permits)
  {
    turn := 0;
    ghost var m := store.maxConcurrent;
    if !Runs(join) {
      return if join.Failed? then Unavailable else Cancelled, 0;
    }
    NextIsSound(m, store.State(), Enqueue(task, ttl));
    JoinedIsThere(store.State(), task, ttl);
    var enqueued := store.RunEnqueue(task, ttl);
    if !join.Answered? {
      return if join.Failed? then Unavailable else Cancelled, 0;
    }
    if !enqueued {
      return Unavailable, 0;
    }
    outcome, turn := AwaitTurn(store, task, permit, polls);
  }

  lemma JoinedIsThere(r: Redis, task: string, ttl: int)
    ensures !Left(Enqueued(r, task, ttl), task)
  {
    var e := Entry(task, r.sequence + 1);
    assert e in Enqueued(r, task, ttl).queue;
  }

  predicate WentOn(m: nat, r: Redis, task: string, permit: string, polls: seq<Poll>, i: nat) {
    i < |polls| && GoesOn(m, AtTurn(m, r, task, permit, polls, i), task, polls[i])
  }

  /**
   * From `r` on, all turns before `turn` go on and that one ends the request with this outcome; the request then
   * holds its permit exactly when its last claim ran, was granted, and the permit has not been evicted since.
   */
  ghost predicate EndsAt(m: nat, r: Redis, task: string, permit: string, polls: seq<Poll>, turn: nat, outcome: Outcome, holds: bool) {
    && turn <= |polls|
    && (forall i | 0 <= i < turn :: WentOn(m, r, task, permit, polls, i))
    && if turn == |polls| then outcome == Cancelled && !holds
       else
         && !WentOn(m, r, task, permit, polls, turn)
         && outcome == Ending(polls[turn])
         && (holds <==>
               && Takes(m, AtTurn(m, r, task, permit, polls, turn), task, polls[turn])
               && !Evicting(Aftermath(polls[turn]), polls[turn].leaseMs))
  }

  /** The loop of a request that knows it has joined. */
  method AwaitTurn(store: RedisStore, task: string, permit: string, polls: seq<Poll>) returns (outcome: Outcome, turn: nat)
    requires Sound(store.maxConcurrent, store.State())
    requires permit !in store.permits && forall p | p in polls :: ForeignPoll(p, task, permit)
    modifies store
    ensures Sound(store.maxConcurrent, store.State())
    ensures outcome != Granted ==> Left(store.State(), task)
    ensures EndsAt(store.maxConcurrent, old(store.State()), task, permit, polls, turn, outcome, permit in store.permits)
  {
    ghost var m, r := store.maxConcurrent, store.State();
    for i := 0 to |polls|
      invariant Sound(m, store.State()) && permit !in store.permits
      invariant Standing(m, r, task, permit, polls, i, store.State())
    {
      assert polls[i] in polls;
      ghost var now := store.State();
      var ended;
      ended, outcome := TakePoll(store, task, permit, polls[i]);
      if ended {
        EndsStanding(m, r, task, permit, polls, i, now, permit in store.permits);
        return outcome, i;
      }
      GoesOnStanding(m, r, task, permit, polls, i, now);
    }
    Leave(store, task, permit, []);
    return Cancelled, |polls|;
  }

  /** All turns before `i` have gone on and led to the state `now`. */
  ghost predicate Standing(m: nat, r: Redis, task: string, permit: string, polls: seq<Poll>, i: nat, now: Redis) {
    && i <= |polls| && now == AtTurn(m, r, task, permit, polls, i)
    && forall k | 0 <= k < i :: WentOn(m, r, task, permit, polls, k)
  }

  lemma GoesOnStanding(m: nat, r: Redis, task: string, permit: string, polls: seq<Poll>, i: nat, now: Redis)
    requires i < |polls| && Standing(m, r, task, permit, polls, i, now) && GoesOn(m, now, task, polls[i])
    ensures Standing(m, r, task, permit, polls, i + 1, AfterTurn(m, now, task, permit, polls[i]))
  {
    assert WentOn(m, r, task, permit, polls, i);
  }

  lemma EndsStanding(m: nat, r: Redis, task: string, permit: string, polls: seq<Poll>, i: nat, now: Redis, holds: bool)
    requires i < |polls| && Standing(m, r, task, permit, polls, i, now) && !GoesOn(m, now, task, polls[i])
    requires holds <==> Takes(m, now, task, polls[i]) && !Evicting(Aftermath(polls[i]), polls[i].leaseMs)
    ensures EndsAt(m, r, task, permit, polls, i, Ending(polls[i]), holds)
  {
    assert !WentOn(m, r, task, permit, polls, i);
  }

  // ---- Lost replies ----

  /** A claim that ran without its reply arriving: the request ends unavailable, and its permit stays. */
  method LostClaimKeepsPermit() returns (store: RedisStore, outcome: Outcome)
    ensures fresh(store) && outcome == Unavailable && "p" in store.permits && Left(store.State(), "t")
  {
    store := new RedisStore(1);
    var poll := Poll([], false, false, false, false, 0, 600000, Failed(true), [], []);
    FirstIsGranted("t", 25);
    assert Run(1, Enqueued(EMPTY, "t", 25), []) == Enqueued(EMPTY, "t", 25);
    var turn;
    outcome, turn := AcquireDistributed(store, "t", "p", 25, Answered, [poll]);
    assert AtTurn(1, Enqueued(EMPTY, "t", 25), "t", "p", [poll], 0) == Enqueued(EMPTY, "t", 25);
    assert Takes(1, Enqueued(EMPTY, "t", 25), "t", poll);
    assert !WentOn(1, Enqueued(EMPTY, "t", 25), "t", "p", [poll], 0);
  }

  lemma FirstIsGranted(task: string, ttl: int)
    ensures !Alive(EMPTY, task)
    ensures ttl > 0 ==> Grants(1, Enqueued(EMPTY, task, ttl), task, 0)
  {
    var r := Enqueued(EMPTY, task, ttl);
    assert r.queue == [Entry(task, 1)];
    if ttl > 0 {
      assert Alive(r, task);
      assert Window(1, r.queue) == 1 && r.queue[..1] == r.queue;
      assert Dead(r, r.queue) == {};
      ZremNothing(r.queue);
      assert Unexpired(r.permits, 0) == map[];
    }
  }

  /** A join that ran without its reply arriving: the request ends, and its entry and live marker keep a place. */
  method LostJoinKeepsPlace(join: Fate) returns (store: RedisStore, outcome: Outcome)
    requires Runs(join) && !join.Answered?
    ensures fresh(store) && outcome != Granted
    ensures Alive(store.State(), "t") && store.queue == [Entry("t", 1)]
  {
    store := new RedisStore(1);
    var turn;
    outcome, turn := AcquireDistributed(store, "t", "p", 25, join, []);
  }
}
