/** Model calls with fallback over the circuit breaker (agent_service/infra_ai/routing_executor.py). */
module Routing {
  import opened HealthStore

  /** How an awaited call ends; `CutOff` is the cancellation of the caller's own task. */
  datatype CallResult<T> = Returned(value: T) | Raised(error: string) | CutOff

  /**
   * What the surroundings do at one target position: whether a client resolves, what other requests
   * do to the shared store before the admission and during the awaited call, how the call ends, and
   * the clock readings.
   */
  datatype Attempt<T> = Attempt(resolved: bool, before: seq<StoreOp>, askedAt: real,
                                during: seq<StoreOp>, result: CallResult<T>, endedAt: real)

  datatype Outcome<T> =
    | Answer(position: nat, value: T)
    | Interrupted(position: nat)
    | NoCandidates
    | AllFailed(lastError: string)
    | NoneAvailable

  type Health = HealthStore.Health

  /** The store when the admission check of this position is made. */
  function AtAdmission<T>(l: Limits, m: map<string, Health>, a: Attempt<T>): map<string, Health> {
    ApplyAll(l, m, a.before)
  }

  predicate Admitted<T>(l: Limits, m: map<string, Health>, id: string, a: Attempt<T>) {
    a.resolved && Admit(l, Entry(AtAdmission(l, m, a), id), a.askedAt).1
  }

  /** The store after the position has been dealt with. */
  function AfterAttempt<T>(l: Limits, m: map<string, Health>, id: string, a: Attempt<T>): map<string, Health> {
    if !a.resolved then AtAdmission(l, m, a)
    else
      var asked := Apply(l, AtAdmission(l, m, a), Allow(id, a.askedAt));
      if !Admitted(l, m, id, a) then asked
      else
        var called := ApplyAll(l, asked, a.during);
        match a.result
        case Returned(_) => Apply(l, called, Success(id))
        case Raised(_) => Apply(l, called, Failure(id, a.endedAt))
        case CutOff => called
  }

  /** The store when position `i` is reached, all earlier positions having been dealt with. */
  function Before<T>(l: Limits, m: map<string, Health>, ids: seq<string>, script: seq<Attempt<T>>, i: nat): map<string, Health>
    requires |ids| == |script| && i <= |ids|
  {
    if i == 0 then m else AfterAttempt(l, Before(l, m, ids, script, i - 1), ids[i - 1], script[i - 1])
  }

  /** For each of the first `n` positions, whether it is called. */
  function Tried<T>(l: Limits, m: map<string, Health>, ids: seq<string>, script: seq<Attempt<T>>, n: nat): (r: seq<bool>)
    requires |ids| == |script| && n <= |ids|
    ensures |r| == n
  {
    if n == 0 then []
    else Tried(l, m, ids, script, n - 1) + [Admitted(l, Before(l, m, ids, script, n - 1), ids[n - 1], script[n - 1])]
  }

  /** Position `i` is called and its call does not fail, so that it is the last one. */
  predicate Settles<T>(script: seq<Attempt<T>>, tried: seq<bool>, i: nat)
    requires i < |tried| <= |script|
  {
    tried[i] && !script[i].result.Raised?
  }

  /** The last call made failed with this error. */
  ghost predicate LastFailure<T>(script: seq<Attempt<T>>, tried: seq<bool>, error: string)
    requires |tried| <= |script|
  {
    exists k | 0 <= k < |tried| ::
      tried[k] && script[k].result == Raised(error) && forall j | k < j < |tried| :: !tried[j]
  }

  /** The positions called: all of them, once each, in order. */
  function Positions(tried: seq<bool>): seq<nat> {
    if tried == [] then []
    else Positions(tried[..|tried| - 1]) + if tried[|tried| - 1] then [|tried| - 1] else []
  }

  lemma {:induction false} PositionsAreInOrder(tried: seq<bool>)
    ensures forall k: nat :: k in Positions(tried) <==> k < |tried| && tried[k]
    ensures forall i, j | 0 <= i < j < |Positions(tried)| :: Positions(tried)[i] < Positions(tried)[j]
  {
    if tried != [] {
      var n := |tried| - 1;
      PositionsAreInOrder(tried[..n]);
      var before := Positions(tried[..n]);
      forall i | 0 <= i < |before|
        ensures before[i] < n
      {
        assert before[i] in before;
      }
    }
  }

  /** One turn of the loop up to and including the report to the breaker. */
  method AttemptTarget<T>(store: ModelHealthStore, id: string, a: Attempt<T>) returns (called: bool)
    modifies store
    ensures store.healthById == AfterAttempt(store.limits, old(store.healthById), id, a)
    ensures called == Admitted(store.limits, old(store.healthById), id, a)
  {
    store.Perform(a.before);
    if !a.resolved {
      return false;
    }
    var allowed := store.AllowCall(id, a.askedAt);
    if !allowed {
      return false;
    }
    store.Perform(a.during);
    if a.result.Raised? {
      store.RecordFailure(id, a.endedAt);
    } else if a.result.Returned? {
      store.RecordSuccess(id);
    }
    return true;
  }

  /** No answer so far: what the loop remembers. */
  ghost predicate Unanswered<T>(script: seq<Attempt<T>>, tried: seq<bool>, failed: bool, error: string)
    requires |tried| <= |script|
  {
    && (forall j | 0 <= j < |tried| :: !Settles(script, tried, j))
    && (failed ==> LastFailure(script, tried, error))
    && (!failed ==> forall j | 0 <= j < |tried| :: !tried[j])
  }

  lemma PositionDone<T>(script: seq<Attempt<T>>, tried: seq<bool>, failed: bool, error: string, called: bool)
    requires |tried| < |script| && Unanswered(script, tried, failed, error)
    requires called ==> script[|tried|].result.Raised?
    ensures Unanswered(script, tried + [called], failed || called,
                       if called then script[|tried|].result.error else error)
  {
    var n, more := |tried|, tried + [called];
    forall j | 0 <= j < |more|
      ensures !Settles(script, more, j)
    {
      assert j < n ==> !Settles(script, tried, j);
    }
    if called {
      assert more[n] && script[n].result == Raised(script[n].result.error);
    } else if failed {
      var k :| 0 <= k < n && tried[k] && script[k].result == Raised(error) && forall j | k < j < n :: !tried[j];
      assert more[k];
    }
  }

  /**
   * What the caller gets: the answer of the first position that resolves, is admitted and does not fail, unless the caller
   * is cancelled there; or, when there is none, the error of the last call made, or the news that nobody could be called.
   */
  ghost predicate RightOutcome<T>(script: seq<Attempt<T>>, tried: seq<bool>, outcome: Outcome<T>) {
    match outcome
    case Answer(position, value) =>
      && |tried| == position + 1 <= |script|
      && Settles(script, tried, position) && script[position].result == Returned(value)
      && forall j | 0 <= j < position :: !Settles(script, tried, j)
    case Interrupted(position) =>
      && |tried| == position + 1 <= |script|
      && Settles(script, tried, position) && script[position].result.CutOff?
      && forall j | 0 <= j < position :: !Settles(script, tried, j)
    case NoCandidates => script == [] && tried == []
    case AllFailed(error) =>
      && |tried| == |script| && LastFailure(script, tried, error)
      && forall j | 0 <= j < |script| :: !Settles(script, tried, j)
    case NoneAvailable => |tried| == |script| != 0 && forall j | 0 <= j < |script| :: !tried[j]
  }

  /** The outcome of a position that settles the request. */
  function Settled<T>(i: nat, result: CallResult<T>): Outcome<T>
    requires !result.Raised?
  {
    if result.CutOff? then Interrupted(i) else Answer(i, result.value)
  }

  lemma AnswerIsRight<T>(script: seq<Attempt<T>>, tried: seq<bool>, failed: bool, error: string)
    requires |tried| < |script| && Unanswered(script, tried, failed, error) && !script[|tried|].result.Raised?
    ensures RightOutcome(script, tried + [true], Settled(|tried|, script[|tried|].result))
  {
    forall j | 0 <= j < |tried|
      ensures !Settles(script, tried + [true], j)
    {
      assert !Settles(script, tried, j);
    }
  }

  /** Where the loop stopped. */
  function Stop<T>(outcome: Outcome<T>, n: nat): nat {
    if (outcome.Answer? || outcome.Interrupted?) && outcome.position < n then outcome.position + 1 else n
  }

  /** The loop stands at position `i` without an answer, and the store is `now`. */
  ghost predicate Progress<T>(l: Limits, m: map<string, Health>, now: map<string, Health>, ids: seq<string>, script: seq<Attempt<T>>,
                              i: nat, called: seq<nat>, failed: bool, error: string)
    requires |ids| == |script| && i <= |ids|
  {
    var tried := Tried(l, m, ids, script, i);
    now == Before(l, m, ids, script, i) && called == Positions(tried) && Unanswered(script, tried, failed, error)
  }

  lemma PositionsSnoc(tried: seq<bool>, called: bool)
    ensures Positions(tried + [called]) == if called then Positions(tried) + [|tried|] else Positions(tried)
  {
    assert (tried + [called])[..|tried|] == tried;
  }

  lemma PositionPassed<T>(l: Limits, m: map<string, Health>, now: map<string, Health>, ids: seq<string>, script: seq<Attempt<T>>,
                          i: nat, called: seq<nat>, failed: bool, error: string, tried: bool)
    requires |ids| == |script| && i < |ids| && Progress(l, m, now, ids, script, i, called, failed, error)
    requires tried == Admitted(l, now, ids[i], script[i]) && (tried ==> script[i].result.Raised?)
    ensures Progress(l, m, AfterAttempt(l, now, ids[i], script[i]), ids, script, i + 1,
                     if tried then called + [i] else called, failed || tried, if tried then script[i].result.error else error)
  {
    var before := Tried(l, m, ids, script, i);
    PositionDone(script, before, failed, error, tried);
    PositionsSnoc(before, tried);
  }

  lemma PositionAnswered<T>(l: Limits, m: map<string, Health>, now: map<string, Health>, ids: seq<string>, script: seq<Attempt<T>>,
                            i: nat, called: seq<nat>, failed: bool, error: string)
    requires |ids| == |script| && i < |ids| && Progress(l, m, now, ids, script, i, called, failed, error)
    requires Admitted(l, now, ids[i], script[i]) && !script[i].result.Raised?
    ensures RightOutcome(script, Tried(l, m, ids, script, i + 1), Settled(i, script[i].result))
    ensures called + [i] == Positions(Tried(l, m, ids, script, i + 1))
    ensures AfterAttempt(l, now, ids[i], script[i]) == Before(l, m, ids, script, i + 1)
  {
    var before := Tried(l, m, ids, script, i);
    AnswerIsRight(script, before, failed, error);
    PositionsSnoc(before, true);
  }

  /**
   * The targets are tried in order, each position at most once, whatever else happens to the store
   * meanwhile. `called` lists the positions that were really called.
   */
  method ExecuteWithFallback<T>(store: ModelHealthStore, ids: seq<string>, script: seq<Attempt<T>>)
    returns (outcome: Outcome<T>, called: seq<nat>)
    requires |ids| == |script|
    modifies store
    ensures var tried := Tried(store.limits, old(store.healthById), ids, script, Stop(outcome, |ids|));
            RightOutcome(script, tried, outcome) && called == Positions(tried)
    ensures store.healthById == Before(store.limits, old(store.healthById), ids, script, Stop(outcome, |ids|))
  {
    called := [];
    if ids == [] {
      return NoCandidates, [];
    }
    ghost var m := store.healthById;
    var lastError: string := "";
    var failed := false;
    for i := 0 to |ids|
      invariant Progress(store.limits, m, store.healthById, ids, script, i, called, failed, lastError)
    {
      ghost var now := store.healthById;
      var allowed := AttemptTarget(store, ids[i], script[i]);
      if !allowed {
        PositionPassed(store.limits, m, now, ids, script, i, called, failed, lastError, false);
        continue;
      }
      if !script[i].result.Raised? {
        PositionAnswered(store.limits, m, now, ids, script, i, called, failed, lastError);
        return Settled(i, script[i].result), called + [i];
      }
      PositionPassed(store.limits, m, now, ids, script, i, called, failed, lastError, true);
      called := called + [i];
      failed, lastError := true, script[i].result.error;
    }
    outcome := if failed then AllFailed(lastError) else NoneAvailable;
  }

  /**
   * A probe whose caller is cancelled keeps its slot: with one slot, the model is then refused at every later time as long
   * as nobody else reports about it.
   */
  lemma CutOffProbeKeepsItsSlot<T>(l: Limits, m: map<string, Health>, id: string, a: Attempt<T>, later: real)
    requires l.maxProbes == 1 && Admitted(l, m, id, a) && a.before == a.during == [] && a.result.CutOff?
    requires Sound(l, Entry(m, id)) && Entry(m, id).state != Closed
    ensures Entry(AfterAttempt(l, m, id, a), id).state == HalfOpen
    ensures !Admit(l, Entry(AfterAttempt(l, m, id, a), id), later).1
  {}
}
