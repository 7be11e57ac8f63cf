/** One streamed request from registration to clean-up (agent_service/services/stream_chat_service.py). */
module StreamChat {

  import opened Text
  import opened FirstToken
  import opened StreamGrammar
  import opened CallbackQueue
  import A = Admission

  // ---- Everything the stream does not decide itself ----

  /** How an awaited call ends; `CancelRaised` is the cancellation of the request's own task. */
  datatype Outcome = Returns | Raises | CancelRaised

  datatype Registration = Accepted | Refused | CutOff

  datatype Admission = Granted | CancelledInQueue | TimedOut | NotAvailable | AdmissionRaises | AdmissionCutOff

  datatype Connection = Connected | Gone | Unknown(outcome: Outcome)

  /**
   * One round of the event loop: packets that arrive before it, what the checks find, packets that arrive while
   * it waits, and whether the request's task is cancelled in that wait.
   */
  datatype Round = Round(
    before: seq<Packet>, connection: Connection, managerCancel: Outcome, cancelled: bool,
    during: seq<Packet>, cutOff: bool)

  /**
   * `closeAt`: the consumer closes the stream when it has received that many events; 0 for never. `release`: what becomes
   * of the command, or of the wait for the lock, that gives the permit back.
   */
  datatype Env = Env(
    registration: Registration, closeAt: nat, cancelledEarly: bool, admission: Admission, rejection: Outcome,
    bindPreparation: bool, preparation: Outcome, cancelledAfterPreparation: bool,
    bindStart: bool, startCleanup: Outcome, start: Outcome, duringStart: seq<Packet>, bindHandle: bool,
    rounds: seq<Round>, cancelledOnError: bool, completion: Outcome, interruptedCompletion: Outcome,
    cancelledInHandler: bool,
    startLeftOver: bool, startEnds: Outcome, cancelledAtEnd: bool, leaseEnds: Outcome, release: A.Fate)

  /** How control leaves a part of the stream. */
  datatype Flow = Proceed | Ended | Disconnected | Closed | Raised | CancelledOut

  datatype Saved = Saved(reply: string, interrupted: bool)

  function StripLeft(isSpace: char -> bool, s: string): string {
    if s != "" && isSpace(s[0]) then StripLeft(isSpace, s[1..]) else s
  }

  function Strip(isSpace: char -> bool, s: string): string {
    var t := StripLeft(isSpace, s);
    StripRight(isSpace, t)
  }

  function StripRight(isSpace: char -> bool, s: string): string {
    if s != "" && isSpace(s[|s| - 1]) then StripRight(isSpace, s[..|s| - 1]) else s
  }

  // ---- What the stream keeps ----

  /** The client has seen all packets taken from the queue, but for a last one that ends the model's stream. */
  ghost predicate Following(shown: seq<Packet>, taken: seq<Packet>) {
    taken == shown || (|taken| == |shown| + 1 && taken[..|shown|] == shown && Ends(taken[|shown|]))
  }

  /** At most one reply is saved, and it is what the client has seen of the answer. */
  ghost predicate SavedOnce(isSpace: char -> bool, saved: seq<Saved>, log: seq<Event>) {
    |saved| <= 1 && (saved != [] ==> saved[0].reply == Strip(isSpace, Answer(Shown(log))) && saved[0].reply != "")
  }

  /** The client is told that a reply was saved only when it was. */
  ghost predicate Truthful(saved: seq<Saved>, log: seq<Event>) {
    && (CancelEvent(true) in log ==> |saved| == 1 && saved[0].interrupted)
    && (Finish(false) in log ==> |saved| == 1 && !saved[0].interrupted)
  }

  /** The client is told that the answer is finished only after the model has completed it. */
  ghost predicate Whole(log: seq<Event>, shown: seq<Packet>, taken: seq<Packet>) {
    Finish(false) in log ==> |taken| == |shown| + 1 && taken[|shown|] == Complete
  }

  /** Whether the stream can come across a cancellation of its task. */
  ghost predicate CancelSeen(env: Env) {
    || env.cancelledEarly || env.admission == CancelledInQueue || !env.bindPreparation || env.cancelledAfterPreparation
    || !env.bindStart || !env.bindHandle || env.cancelledOnError || env.cancelledInHandler
    || exists r :: r in env.rounds && r.cancelled
  }

  /** Whether something that the stream calls can fail. */
  ghost predicate FailureSeen(env: Env) {
    || env.registration == Refused || env.admission == NotAvailable || env.admission == AdmissionRaises
    || env.preparation == Raises || env.startCleanup == Raises || env.start == Raises || env.completion == Raises
    || exists r :: r in env.rounds && RoundFails(r)
  }

  predicate RoundFails(r: Round) {
    r.connection == Unknown(Raises) || r.managerCancel == Raises
  }

  /** What must have happened for an event to be emitted. */
  ghost predicate Justifies(env: Env, isSpace: char -> bool, overflowed: bool, taken: seq<Packet>, e: Event) {
    match e
    case CancelEvent(_) => CancelSeen(env)
    case Reject => env.admission == TimedOut
    case Finish(rejected) => rejected ==> env.admission == TimedOut
    case ErrorEvent =>
      || FailureSeen(env) || overflowed
      || (taken != [] && taken[|taken| - 1] == Error)
      || (taken != [] && taken[|taken| - 1] == Complete && Strip(isSpace, Answer(taken)) == "")
    case _ => true
  }

  ghost predicate AllJustified(env: Env, isSpace: char -> bool, overflowed: bool, taken: seq<Packet>, log: seq<Event>) {
    forall e | e in log :: Justifies(env, isSpace, overflowed, taken, e)
  }

  /** As long as the answer goes on, there is nothing to justify. */
  lemma AnsweringIsJustified(env: Env, isSpace: char -> bool, overflowed: bool, taken: seq<Packet>, log: seq<Event>)
    requires PhaseOf(log) == Phase.Answering
    ensures AllJustified(env, isSpace, overflowed, taken, log)
  {
    PhaseExplains(log);
    var m :| Messages(m) && log == [Meta, Meta, Meta] + m;
    assert forall e | e in m :: e.Message?;
  }

  ghost predicate Coherent(isSpace: char -> bool, log: seq<Event>, parts: seq<string>, saved: seq<Saved>, taken: seq<Packet>) {
    && PhaseOf(log) != Broken
    && Join(parts) == Answer(Shown(log))
    && Following(Shown(log), taken)
    && SavedOnce(isSpace, saved, log) && Truthful(saved, log) && Whole(log, Shown(log), taken)
  }

  lemma OneMoreShown(isSpace: char -> bool, log: seq<Event>, parts: seq<string>, taken: seq<Packet>, p: Packet)
    requires Coherent(isSpace, log, parts, [], taken) && PhaseOf(log) == Phase.Answering && taken == Shown(log) && !Ends(p)
    ensures Coherent(isSpace, log + [Message(p)], if p.Content? then parts + [p.text] else parts, [], taken + [p])
    ensures PhaseOf(log + [Message(p)]) == Phase.Answering && taken + [p] == Shown(log + [Message(p)])
  {
    PhaseSnoc(log, Message(p));
    ShownSnoc(log, Message(p));
    AnswerSnoc(taken, p);
    if p.Content? {
      JoinSnoc(parts, p.text);
    }
  }

  function PacketsOf(rounds: seq<Round>): seq<Packet> {
    if rounds == [] then []
    else PacketsOf(rounds[..|rounds| - 1]) + (rounds[|rounds| - 1].before + rounds[|rounds| - 1].during)
  }

  lemma PacketsSnoc(rounds: seq<Round>, i: nat)
    requires i < |rounds|
    ensures PacketsOf(rounds[..i + 1]) == PacketsOf(rounds[..i]) + (rounds[i].before + rounds[i].during)
  {
    assert rounds[..i + 1][..i] == rounds[..i];
  }

  lemma {:induction false} PacketsGrow(rounds: seq<Round>, i: nat)
    requires i <= |rounds|
    ensures PacketsOf(rounds[..i]) <= PacketsOf(rounds)
    decreases |rounds| - i
  {
    if i < |rounds| {
      PacketsGrow(rounds, i + 1);
      PacketsSnoc(rounds, i);
    } else {
      assert rounds[..i] == rounds;
    }
  }

  ghost predicate AwaitCancelled(env: Env) {
    || env.registration == CutOff || env.admission == AdmissionCutOff || env.rejection == CancelRaised
    || env.preparation == CancelRaised || env.start == CancelRaised || env.completion == CancelRaised
    || env.interruptedCompletion == CancelRaised
    || exists r :: r in env.rounds && RoundCancelled(r)
  }

  predicate RoundCancelled(r: Round) {
    r.connection == Unknown(CancelRaised) || r.managerCancel == CancelRaised || r.cutOff
  }

  /** Whether the stream gets as far as holding a permit. */
  predicate TakesPermit(env: Env) {
    env.registration == Accepted && env.closeAt != 1 && !env.cancelledEarly && env.admission == Granted
  }

  /** Whether the stream gets as far as starting a model. */
  predicate StartsModel(env: Env) {
    && TakesPermit(env) && env.closeAt != 2 && env.closeAt != 3
    && env.bindPreparation && env.preparation == Returns && !env.cancelledAfterPreparation
  }

  /** No helper task that clean-up waits for ends with an error of its own. */
  predicate HelpersEndWell(env: Env) {
    && (StartsModel(env) && env.startLeftOver ==> env.startEnds != Raises)
    && (TakesPermit(env) ==> env.leaseEnds != Raises)
  }

  /** What the client hears at the end, as far as it is still listening. */
  ghost predicate Told(before: seq<Event>, after: seq<Event>, e: Event) {
    after == before + [e] || after == before + [e] + [Done]
  }

  /** The events of a request that is not admitted. */
  ghost predicate Refusal(admission: Admission, before: seq<Event>, after: seq<Event>) {
    match admission
    case CancelledInQueue => after == before + [CancelEvent(false)] + [Done]
    case TimedOut => after == before + [Reject] + [Finish(true)] + [Done]
    case NotAvailable => after == before + [ErrorEvent] + [Done]
    case _ => false
  }

  class Session {
    const isSpace: char -> bool
    const env: Env
    const callback: QueueStreamCallback
    var log: seq<Event>
    var parts: seq<string>
    var saved: seq<Saved>
    var prepared: bool
    var answerStarted: bool
    var cancellationPersisted: bool
    var failuresRecorded: nat
    var permitHeld: bool
    var leaseStarted: bool
    var startCreated: bool
    var releases: nat
    var finalized: bool
    ghost var roundsTaken: nat

    ghost predicate Valid()
      reads this`log, this`parts, this`saved, callback
    {
      && callback.Valid() && Coherent(isSpace, log, parts, saved, callback.taken)
      && AllJustified(env, isSpace, callback.overflowed, callback.taken, log)
    }

    /** Nothing is saved, and whoever handles an exception may still tell the client. */
    ghost predicate Open()
      reads this`log, this`saved
    {
      saved == [] && (PhaseOf(log) == Queued || PhaseOf(log) == Preparing || PhaseOf(log) == Phase.Answering)
    }

    ghost predicate Streaming()
      reads this, callback
    {
      saved == [] && PhaseOf(log) == Phase.Answering && callback.taken == Shown(log) && prepared && answerStarted
    }

    constructor (isSpace: char -> bool, capacity: nat, env: Env)
      ensures Valid() && fresh(callback) && log == [] && saved == [] && this.isSpace == isSpace && this.env == env
      ensures !permitHeld && !leaseStarted && !startCreated && releases == 0 && !finalized && !prepared && !answerStarted
      ensures callback.pushed == [] && roundsTaken == 0 && !cancellationPersisted
    {
      this.isSpace, this.env := isSpace, env;
      callback := new QueueStreamCallback(capacity);
      log, parts, saved, prepared, answerStarted, cancellationPersisted := [], [], [], false, false, false;
      failuresRecorded, permitHeld, leaseStarted, startCreated, releases, finalized, roundsTaken := 0, false, false, false, 0, false, 0;
    }

    /** A yield that is not a message. */
    method Emit(e: Event) returns (open: bool)
      requires Valid() && !e.Message? && Advance(PhaseOf(log), e) != Broken
      requires Truthful(saved, [e]) && Whole([e], Shown(log), callback.taken)
      requires Justifies(env, isSpace, callback.overflowed, callback.taken, e)
      modifies this`log
      ensures Valid() && log == old(log) + [e] && PhaseOf(log) == Advance(PhaseOf(old(log)), e) && Shown(log) == Shown(old(log))
      ensures open <==> |log| != env.closeAt
    {
      PhaseSnoc(log, e);
      ShownSnoc(log, e);
      log := log + [e];
      open := |log| != env.closeAt;
    }

    /** A terminal event and "done". */
    method EmitLast(e: Event) returns (flow: Flow)
      requires Valid() && !e.Message? && Advance(PhaseOf(log), e) == Ending
      requires Truthful(saved, [e]) && Whole([e], Shown(log), callback.taken)
      requires Justifies(env, isSpace, callback.overflowed, callback.taken, e)
      modifies this`log
      ensures Valid() && Shown(log) == Shown(old(log))
      ensures Told(old(log), log, e)
      ensures env.closeAt == 0 ==> flow == Ended && log == old(log) + [e] + [Done]
      ensures flow == Ended ==> PhaseOf(log) == Finished
      ensures flow == Closed ==> |log| == env.closeAt
      ensures flow == Ended || flow == Closed
    {
      var open := Emit(e);
      if !open {
        return Closed;
      }
      open := Emit(Done);
      return if open then Ended else Closed;
    }

    /** Saves what the client has seen of an interrupted answer, at most once; a failure to save is swallowed. */
    method CancelledPayload(outcome: Outcome) returns (flow: Flow, partial: bool)
      requires Valid() && Open()
      modifies this`saved, this`cancellationPersisted
      ensures Valid() && (flow == Proceed || flow == CancelledOut)
      ensures flow == CancelledOut ==> outcome == CancelRaised && Open()
      ensures !(prepared && answerStarted) ==> flow == Proceed
      ensures partial ==> |saved| == 1 && saved[0].interrupted && prepared && answerStarted
      ensures outcome == Returns && prepared && answerStarted && !old(cancellationPersisted) ==>
                (partial <==> Strip(isSpace, Answer(Shown(log))) != "")
      ensures !partial ==> saved == []
    {
      var reply := Strip(isSpace, Join(parts));
      if prepared && answerStarted && reply != "" && !cancellationPersisted {
        cancellationPersisted := true;
        if outcome == CancelRaised {
          return CancelledOut, false;
        }
        if outcome == Returns {
          saved := saved + [Saved(reply, true)];
          return Proceed, true;
        }
      }
      return Proceed, false;
    }

    lemma TellsTheTruth(partial: bool)
      requires Valid() && CancelSeen(env) && (if partial then |saved| == 1 && saved[0].interrupted else saved == [])
      ensures Truthful(saved, [CancelEvent(partial)])
      ensures Whole([CancelEvent(partial)], Shown(log), callback.taken)
      ensures Justifies(env, isSpace, callback.overflowed, callback.taken, CancelEvent(partial))
    {}

    method EmitCancel(outcome: Outcome) returns (flow: Flow)
      requires Valid() && Open() && CancelSeen(env)
      modifies this`log, this`saved, this`cancellationPersisted
      ensures Valid() && Shown(log) == Shown(old(log))
      ensures flow == Ended ==> PhaseOf(log) == Finished
      ensures flow == Closed ==> |log| == env.closeAt
      ensures flow == CancelledOut ==> outcome == CancelRaised && Open()
      ensures flow == Ended || flow == Closed || flow == CancelledOut
      ensures if flow == CancelledOut then log == old(log) else Told(old(log), log, CancelEvent(saved != []))
      ensures env.closeAt == 0 && !prepared ==> flow == Ended && log == old(log) + [CancelEvent(false)] + [Done]
    {
      var partial;
      flow, partial := CancelledPayload(outcome);
      if flow == Proceed {
        flow := TellCancelled(partial);
      }
    }

    method TellCancelled(partial: bool) returns (flow: Flow)
      requires Valid() && CancelSeen(env) && (if partial then |saved| == 1 && saved[0].interrupted else saved == [])
      requires PhaseOf(log) == Queued || PhaseOf(log) == Preparing || PhaseOf(log) == Phase.Answering
      modifies this`log
      ensures Valid() && Shown(log) == Shown(old(log))
      ensures flow == Ended ==> PhaseOf(log) == Finished
      ensures flow == Closed ==> |log| == env.closeAt
      ensures flow == Ended || flow == Closed
      ensures Told(old(log), log, CancelEvent(partial))
      ensures env.closeAt == 0 ==> flow == Ended && log == old(log) + [CancelEvent(partial)] + [Done]
    {
      TellsTheTruth(partial);
      flow := EmitLast(CancelEvent(partial));
    }

    method EmitError() returns (flow: Flow)
      requires Valid() && Open() && Justifies(env, isSpace, callback.overflowed, callback.taken, ErrorEvent)
      modifies this`log
      ensures Valid() && Shown(log) == Shown(old(log))
      ensures Told(old(log), log, ErrorEvent)
      ensures flow == Ended ==> PhaseOf(log) == Finished
      ensures flow == Closed ==> |log| == env.closeAt
      ensures flow == Ended || flow == Closed
      ensures env.closeAt == 0 ==> flow == Ended && log == old(log) + [ErrorEvent] + [Done]
    {
      flow := EmitLast(ErrorEvent);
    }

    // ---- Streaming ----

    /** Passes the next packet of output on to the client. */
    method ShowNext() returns (flow: Flow)
      requires Valid() && Streaming() && callback.queue != [] && !Ends(callback.queue[0])
      modifies this`log, this`parts, callback
      ensures Valid() && Streaming() && callback.pushed == old(callback.pushed)
      ensures callback.taken == old(callback.taken) + [old(callback.queue)[0]]
      ensures flow == Proceed || (flow == Closed && |log| == env.closeAt)
    {
      OneMoreShown(isSpace, log, parts, callback.taken, callback.queue[0]);
      var p := callback.Get();
      if p.Content? {
        parts := parts + [p.text];
      }
      log := log + [Message(p)];
      AnsweringIsJustified(env, isSpace, callback.overflowed, callback.taken, log);
      return if |log| == env.closeAt then Closed else Proceed;
    }

    /** The model has completed its answer. */
    method Conclude(completion: Outcome) returns (flow: Flow)
      requires Valid() && Open() && PhaseOf(log) == Phase.Answering
      requires |callback.taken| == |Shown(log)| + 1 && callback.taken[|Shown(log)|] == Complete
      modifies this`log, this`saved, this`failuresRecorded
      ensures Valid() && Shown(log) == Shown(old(log))
      ensures flow == Ended ==> PhaseOf(log) == Finished
      ensures flow == Closed ==> |log| == env.closeAt
      ensures flow == Raised || flow == CancelledOut ==> Open()
      ensures flow == CancelledOut ==> completion == CancelRaised
      ensures flow == Raised ==> completion == Raises
      ensures flow != Proceed && flow != Disconnected
      ensures if Strip(isSpace, Answer(Shown(log))) == "" then Told(old(log), log, ErrorEvent)
              else if completion == Returns then Told(old(log), log, Finish(false))
              else log == old(log)
      ensures completion == Returns && Strip(isSpace, Answer(Shown(log))) != "" ==>
                saved == [Saved(Strip(isSpace, Answer(Shown(log))), false)]
    {
      AnswerSnoc(Shown(log), Complete);
      assert callback.taken == Shown(log) + [Complete];
      assert Answer(callback.taken) == Answer(Shown(log));
      var reply := Strip(isSpace, Join(parts));
      if reply == "" {
        failuresRecorded := failuresRecorded + 1;
        flow := EmitError();
        return;
      }
      if completion == Raises {
        return Raised;
      }
      if completion == CancelRaised {
        return CancelledOut;
      }
      flow := FinishAnswer(reply);
    }

    method FinishAnswer(reply: string) returns (flow: Flow)
      requires Valid() && Open() && PhaseOf(log) == Phase.Answering
      requires |callback.taken| == |Shown(log)| + 1 && callback.taken[|Shown(log)|] == Complete
      requires reply == Strip(isSpace, Answer(Shown(log))) && reply != ""
      modifies this`log, this`saved
      ensures Valid() && Shown(log) == Shown(old(log)) && Told(old(log), log, Finish(false))
      ensures saved == [Saved(reply, false)]
      ensures flow == Ended ==> PhaseOf(log) == Finished
      ensures flow == Closed ==> |log| == env.closeAt
      ensures flow == Ended || flow == Closed
    {
      saved := saved + [Saved(reply, false)];
      flow := EmitLast(Finish(false));
    }

    method HandleNext() returns (flow: Flow)
      requires Valid() && Streaming() && callback.queue != []
      modifies this`log, this`parts, this`saved, this`cancellationPersisted, this`failuresRecorded, callback
      ensures Valid() && callback.pushed == old(callback.pushed) && callback.taken == old(callback.taken) + [old(callback.queue)[0]]
      ensures flow == Proceed ==> Streaming()
      ensures flow == Ended ==> PhaseOf(log) == Finished
      ensures flow == Closed ==> |log| == env.closeAt
      ensures flow == Raised || flow == CancelledOut ==> Open()
      ensures flow == CancelledOut ==> env.completion == CancelRaised || env.interruptedCompletion == CancelRaised
      ensures flow == Raised ==> env.completion == Raises
      ensures flow != Disconnected
    {
      var p := callback.queue[0];
      if p.Content? || p.Thinking? {
        flow := ShowNext();
        return;
      }
      p := callback.Get();
      AnsweringIsJustified(env, isSpace, callback.overflowed, callback.taken, log);
      if p == Complete {
        flow := Conclude(env.completion);
      } else if env.cancelledOnError {
        flow := EmitCancel(env.interruptedCompletion);
      } else {
        failuresRecorded := failuresRecorded + 1;
        flow := EmitError();
      }
    }

    method OnDisconnect(round: Round) returns (flow: Flow)
      requires Valid() && Open()
      modifies this`saved, this`cancellationPersisted
      ensures Valid()
      ensures flow == Raised || flow == CancelledOut ==> Open()
      ensures flow == CancelledOut ==> RoundCancelled(round) || env.interruptedCompletion == CancelRaised
      ensures flow == Raised ==> RoundFails(round)
      ensures flow == Disconnected || flow == Raised || flow == CancelledOut
    {
      if round.managerCancel == Raises {
        return Raised;
      }
      if round.managerCancel == CancelRaised {
        return CancelledOut;
      }
      var partial;
      flow, partial := CancelledPayload(env.interruptedCompletion);
      if flow == Proceed {
        flow := Disconnected;
      }
    }

    /** The checks at the head of a round. */
    method CheckRound(round: Round) returns (flow: Flow)
      requires Valid() && Streaming() && round in env.rounds
      modifies this`log, this`saved, this`cancellationPersisted, this`failuresRecorded, callback
      ensures Valid() && callback.pushed == old(callback.pushed) + round.before
      ensures flow == Proceed ==> Streaming()
      ensures flow == Ended ==> PhaseOf(log) == Finished
      ensures flow == Closed ==> |log| == env.closeAt
      ensures flow == Raised || flow == CancelledOut ==> Open()
      ensures flow == CancelledOut ==> RoundCancelled(round) || env.interruptedCompletion == CancelRaised
      ensures flow == Raised ==> RoundFails(round)
      ensures flow == Disconnected ==> round.connection == Gone
      ensures flow == Proceed <==> !callback.overflowed && !round.cancelled
                                   && (round.connection == Connected || round.connection == Unknown(Returns))
    {
      callback.Arrive(round.before);
      if callback.overflowed {
        callback.Cancel();
        failuresRecorded := failuresRecorded + 1;
        flow := EmitError();
        return;
      }
      match round.connection {
        case Gone =>
          flow := OnDisconnect(round);
          return;
        case Unknown(Raises) => return Raised;
        case Unknown(CancelRaised) => return CancelledOut;
        case _ =>
      }
      if round.cancelled {
        flow := EmitCancel(env.interruptedCompletion);
        return;
      }
      return Proceed;
    }

    /** The wait for a packet. */
    method AwaitPacket(round: Round) returns (flow: Flow)
      requires Valid() && Streaming()
      modifies this`log, this`parts, this`saved, this`cancellationPersisted, this`failuresRecorded, callback
      ensures Valid() && callback.pushed == old(callback.pushed) + round.during
      ensures flow == Proceed ==> Streaming() && !round.cutOff
      ensures flow == Proceed && callback.taken == old(callback.taken) ==> callback.queue == []
      ensures flow == Ended ==> PhaseOf(log) == Finished
      ensures flow == Closed ==> |log| == env.closeAt
      ensures flow == Raised || flow == CancelledOut ==> Open()
      ensures flow == CancelledOut ==> RoundCancelled(round) || env.completion == CancelRaised || env.interruptedCompletion == CancelRaised
      ensures flow == Raised ==> RoundFails(round) || env.completion == Raises
      ensures flow != Disconnected
    {
      callback.Arrive(round.during);
      if round.cutOff {
        return CancelledOut;
      }
      if callback.queue == [] {
        return Proceed;
      }
      flow := HandleNext();
    }

    /** One round of the event loop. */
    method TakeRound(round: Round) returns (flow: Flow)
      requires Valid() && Streaming() && round in env.rounds
      modifies this`log, this`parts, this`saved, this`cancellationPersisted, this`failuresRecorded, callback
      ensures Valid()
      ensures callback.pushed == old(callback.pushed) + round.before || callback.pushed == old(callback.pushed) + round.before + round.during
      ensures flow == Proceed ==> Streaming() && callback.pushed == old(callback.pushed) + round.before + round.during
      ensures flow == Ended ==> PhaseOf(log) == Finished
      ensures flow == Closed ==> |log| == env.closeAt
      ensures flow == Raised || flow == CancelledOut ==> Open()
      ensures flow == CancelledOut ==> RoundCancelled(round) || env.completion == CancelRaised || env.interruptedCompletion == CancelRaised
      ensures flow == Raised ==> RoundFails(round) || env.completion == Raises
      ensures flow == Disconnected ==> round.connection == Gone
    {
      flow := CheckRound(round);
      if flow == Proceed {
        flow := AwaitPacket(round);
      }
    }

    /** The event loop; the request's task is cancelled when the rounds are over. */
    method Deliver() returns (flow: Flow)
      requires Valid() && Streaming() && callback.pushed == env.duringStart && roundsTaken == 0
      modifies this`log, this`parts, this`saved, this`cancellationPersisted, this`failuresRecorded, this`roundsTaken, callback
      ensures Valid() && callback.pushed <= env.duringStart + PacketsOf(env.rounds)
      ensures flow == Ended ==> PhaseOf(log) == Finished
      ensures flow == Closed ==> |log| == env.closeAt
      ensures flow == Raised || flow == CancelledOut ==> Open()
      ensures flow == CancelledOut ==> AwaitCancelled(env) || roundsTaken == |env.rounds|
      ensures flow == Raised ==> FailureSeen(env)
      ensures flow == Disconnected ==> exists r :: r in env.rounds && r.connection == Gone
      ensures flow != Proceed
    {
      for i := 0 to |env.rounds|
        invariant Valid() && Streaming() && roundsTaken == i
        invariant callback.pushed == env.duringStart + PacketsOf(env.rounds[..i])
      {
        roundsTaken := roundsTaken + 1;
        var round := env.rounds[i];
        assert round in env.rounds;
        SentSoFar(env.duringStart, env.rounds, i);
        flow := TakeRound(round);
        if flow != Proceed {
          return;
        }
      }
      assert env.rounds[..|env.rounds|] == env.rounds;
      return CancelledOut;
    }

    // ---- Before the first packet ----

    method Admit() returns (flow: Flow)
      requires Valid() && log == [] && saved == [] && !permitHeld && !leaseStarted
      modifies this`log, this`saved, this`cancellationPersisted, this`permitHeld, this`leaseStarted
      ensures Valid() && callback.taken == old(callback.taken) && Shown(log) == []
      ensures permitHeld == leaseStarted == (env.closeAt != 1 && !env.cancelledEarly && env.admission == Granted)
      ensures flow == Proceed ==> saved == [] && PhaseOf(log) == Phase.Preparing && permitHeld
      ensures flow == Proceed <==> !env.cancelledEarly && env.admission == Granted && env.closeAt != 1 && env.closeAt != 2
      ensures flow == Proceed ==> |log| == 2
      ensures env.closeAt == 0 && !prepared && env.cancelledEarly ==> log == [Meta] + [CancelEvent(false)] + [Done]
      ensures env.closeAt == 0 && !prepared && !env.cancelledEarly && flow == Ended ==> Refusal(env.admission, [Meta], log)
      ensures flow == Ended ==> PhaseOf(log) == Finished
      ensures flow == Closed ==> |log| == env.closeAt
      ensures flow == Raised || flow == CancelledOut ==> Open()
      ensures flow == CancelledOut ==> AwaitCancelled(env)
      ensures flow == Raised ==> FailureSeen(env)
      ensures flow != Disconnected
    {
      var open := Emit(Meta);
      if !open {
        return Closed;
      }
      if env.cancelledEarly {
        flow := EmitCancel(env.interruptedCompletion);
        return;
      }
      if env.admission == Granted {
        permitHeld, leaseStarted := true, true;
        open := Emit(Meta);
        return if open then Proceed else Closed;
      }
      flow := NotAdmitted();
    }

    method NotAdmitted() returns (flow: Flow)
      requires Valid() && saved == [] && PhaseOf(log) == Queued && env.admission != Granted
      modifies this`log, this`saved, this`cancellationPersisted
      ensures Valid() && Shown(log) == Shown(old(log))
      ensures flow == Ended ==> PhaseOf(log) == Finished
      ensures flow == Closed ==> |log| == env.closeAt
      ensures flow == Raised || flow == CancelledOut ==> Open()
      ensures flow == CancelledOut ==> AwaitCancelled(env)
      ensures flow == Raised ==> FailureSeen(env)
      ensures flow != Disconnected && flow != Proceed
      ensures env.closeAt == 0 && !prepared && flow == Ended ==> Refusal(env.admission, old(log), log)
    {
      match env.admission
      case CancelledInQueue => flow := EmitCancel(env.interruptedCompletion);
      case TimedOut => flow := EmitRejection(env.rejection);
      case NotAvailable => flow := EmitError();
      case AdmissionRaises => flow := Raised;
      case AdmissionCutOff => flow := CancelledOut;
    }

    /** Saving the rejection is best effort. */
    method EmitRejection(rejection: Outcome) returns (flow: Flow)
      requires Valid() && saved == [] && PhaseOf(log) == Queued && env.admission == TimedOut
      modifies this`log
      ensures Valid() && Shown(log) == Shown(old(log))
      ensures flow == Ended ==> PhaseOf(log) == Finished
      ensures flow == Closed ==> |log| == env.closeAt
      ensures flow == CancelledOut <==> rejection == CancelRaised
      ensures flow == CancelledOut ==> Open()
      ensures flow == Ended || flow == Closed || flow == CancelledOut
      ensures env.closeAt == 0 && rejection != CancelRaised ==> log == old(log) + [Reject] + [Finish(true)] + [Done]
    {
      if rejection == CancelRaised {
        return CancelledOut;
      }
      var open := Emit(Reject);
      if !open {
        return Closed;
      }
      flow := EmitLast(Finish(true));
    }

    method Prepare() returns (flow: Flow)
      requires Valid() && saved == [] && PhaseOf(log) == Phase.Preparing
      modifies this`log, this`saved, this`cancellationPersisted, this`prepared
      ensures Valid() && Shown(log) == Shown(old(log))
      ensures flow == Proceed ==> saved == [] && PhaseOf(log) == Phase.Answering && prepared
      ensures flow == Proceed <==> env.bindPreparation && env.preparation == Returns && !env.cancelledAfterPreparation
                                   && env.closeAt != |old(log)| + 1
      ensures flow == Ended ==> PhaseOf(log) == Finished
      ensures flow == Closed ==> |log| == env.closeAt
      ensures flow == Raised || flow == CancelledOut ==> Open()
      ensures flow == CancelledOut ==> AwaitCancelled(env)
      ensures flow == Raised ==> FailureSeen(env)
      ensures flow != Disconnected
    {
      if !env.bindPreparation {
        flow := EmitCancel(env.interruptedCompletion);
        return;
      }
      if env.preparation == Raises {
        return Raised;
      }
      if env.preparation == CancelRaised {
        return CancelledOut;
      }
      prepared := true;
      if env.cancelledAfterPreparation {
        flow := EmitCancel(env.interruptedCompletion);
        return;
      }
      var open := Emit(Meta);
      flow := if open then Proceed else Closed;
    }

    /** The task was cancelled before the start of the model could be bound to it. */
    method AbortStart() returns (flow: Flow)
      requires Valid() && saved == [] && PhaseOf(log) == Phase.Answering && !env.bindStart
      modifies this`log, this`saved, this`cancellationPersisted
      ensures Valid() && flow != Proceed && flow != Disconnected
      ensures flow == Ended ==> PhaseOf(log) == Finished
      ensures flow == Closed ==> |log| == env.closeAt
      ensures flow == Raised || flow == CancelledOut ==> Open()
      ensures flow == CancelledOut ==> AwaitCancelled(env)
      ensures flow == Raised <==> env.startCleanup == Raises
    {
      if env.startCleanup == Raises {
        return Raised;
      }
      flow := EmitCancel(env.interruptedCompletion);
    }

    method StartModel() returns (flow: Flow)
      requires Valid() && saved == [] && PhaseOf(log) == Phase.Answering && prepared
      requires callback.taken == Shown(log) && callback.pushed == []
      modifies this`log, this`saved, this`cancellationPersisted, this`answerStarted, this`startCreated, callback
      ensures Valid() && callback.pushed <= env.duringStart && startCreated
      ensures flow == Proceed ==> Streaming() && callback.pushed == env.duringStart
      ensures flow == Proceed <==> env.bindStart && env.start == Returns && env.bindHandle
      ensures flow == Ended ==> PhaseOf(log) == Finished
      ensures flow == Closed ==> |log| == env.closeAt
      ensures flow == Raised || flow == CancelledOut ==> Open()
      ensures flow == CancelledOut ==> AwaitCancelled(env)
      ensures flow == Raised ==> FailureSeen(env)
      ensures flow != Disconnected
    {
      answerStarted, startCreated := true, true;
      if !env.bindStart {
        flow := AbortStart();
        return;
      }
      assert [] + env.duringStart == env.duringStart;
      callback.Arrive(env.duringStart);
      if env.start == Returns {
        flow := BindModel();
      } else {
        flow := if env.start == Raises then Raised else CancelledOut;
      }
    }

    /** The model has been started; a cancellation can still win before its handle is bound. */
    method BindModel() returns (flow: Flow)
      requires Valid() && saved == [] && PhaseOf(log) == Phase.Answering
      modifies this`log, this`saved, this`cancellationPersisted, callback`bound, callback`stopped
      ensures Valid() && flow != Raised && flow != Disconnected
      ensures flow == Proceed ==> log == old(log) && saved == []
      ensures flow == Proceed <==> env.bindHandle
      ensures flow == Ended ==> PhaseOf(log) == Finished
      ensures flow == Closed ==> |log| == env.closeAt
      ensures flow == CancelledOut ==> Open() && AwaitCancelled(env)
    {
      callback.BindHandle();
      if env.bindHandle {
        return Proceed;
      }
      flow := EmitCancel(env.interruptedCompletion);
    }

    /** How the try block may be left. */
    ghost predicate Left(flow: Flow)
      reads this`log, this`saved, this`roundsTaken
    {
      && (flow == Ended ==> PhaseOf(log) == Finished)
      && (flow == Closed ==> |log| == env.closeAt)
      && (flow == Raised || flow == CancelledOut ==> Open())
      && (flow == CancelledOut ==> AwaitCancelled(env) || roundsTaken == |env.rounds|)
      && (flow == Raised ==> FailureSeen(env))
      && (flow == Disconnected ==> exists r :: r in env.rounds && r.connection == Gone)
      && flow != Proceed
    }

    method StartAndDeliver() returns (flow: Flow)
      requires Valid() && saved == [] && PhaseOf(log) == Phase.Answering && prepared
      requires callback.taken == Shown(log) && callback.pushed == [] && roundsTaken == 0
      modifies this`log, this`parts, this`saved, this`cancellationPersisted, this`failuresRecorded, this`roundsTaken,
               this`answerStarted, this`startCreated, callback
      ensures Valid() && Left(flow) && callback.pushed <= env.duringStart + PacketsOf(env.rounds) && startCreated
    {
      flow := StartModel();
      if flow == Proceed {
        flow := Deliver();
      }
    }

    method PrepareAndAnswer() returns (flow: Flow)
      requires Valid() && saved == [] && PhaseOf(log) == Phase.Preparing && |log| == 2 && !startCreated
      requires callback.taken == Shown(log) && callback.pushed == [] && roundsTaken == 0
      modifies this`log, this`parts, this`saved, this`cancellationPersisted, this`failuresRecorded, this`roundsTaken,
               this`prepared, this`answerStarted, this`startCreated, callback
      ensures Valid() && Left(flow) && callback.pushed <= env.duringStart + PacketsOf(env.rounds)
      ensures startCreated <==> env.closeAt != 3 && env.bindPreparation && env.preparation == Returns && !env.cancelledAfterPreparation
    {
      flow := Prepare();
      if flow == Proceed {
        flow := StartAndDeliver();
      }
    }

    /** The part of the stream inside the try block. */
    method Body() returns (flow: Flow)
      requires Valid() && log == [] && saved == [] && !permitHeld && !leaseStarted && !startCreated
      requires callback.taken == [] && callback.pushed == [] && roundsTaken == 0 && env.registration == Accepted
      modifies this`log, this`parts, this`saved, this`cancellationPersisted, this`failuresRecorded, this`roundsTaken,
               this`prepared, this`answerStarted, this`startCreated, this`permitHeld, this`leaseStarted, callback
      ensures Valid() && Left(flow) && callback.pushed <= env.duringStart + PacketsOf(env.rounds)
      ensures permitHeld == leaseStarted == TakesPermit(env) && startCreated == StartsModel(env)
    {
      flow := Admit();
      if flow == Proceed {
        flow := PrepareAndAnswer();
      }
    }

    /** The except clauses. */
    method Rescue(raised: Flow) returns (flow: Flow)
      requires Valid() && Left(raised)
      modifies this`log, this`saved, this`cancellationPersisted, this`failuresRecorded
      ensures Valid() && Shown(log) == Shown(old(log))
      ensures flow == Ended ==> PhaseOf(log) == Finished
      ensures flow == Closed ==> |log| == env.closeAt
      ensures flow == CancelledOut ==> AwaitCancelled(env) || roundsTaken == |env.rounds|
      ensures flow == Disconnected ==> exists r :: r in env.rounds && r.connection == Gone
      ensures flow != Proceed && flow != Raised
      ensures raised != Raised && raised != CancelledOut ==> flow == raised && log == old(log)
      ensures (raised == Raised || raised == CancelledOut) && env.cancelledInHandler ==>
                if flow == CancelledOut then log == old(log) && env.interruptedCompletion == CancelRaised
                else Told(old(log), log, CancelEvent(saved != []))
      ensures raised == CancelledOut && !env.cancelledInHandler ==> flow == CancelledOut && log == old(log)
      ensures raised == Raised && !env.cancelledInHandler ==> Told(old(log), log, ErrorEvent)
    {
      if raised != Raised && raised != CancelledOut {
        return raised;
      }
      if env.cancelledInHandler {
        flow := EmitCancel(env.interruptedCompletion);
        return;
      }
      if raised == CancelledOut {
        return CancelledOut;
      }
      if prepared && answerStarted {
        failuresRecorded := failuresRecorded + 1;
      }
      flow := EmitError();
    }

    /** The finally clause. */
    method CleanUp()
      requires callback.Valid() && permitHeld == leaseStarted == TakesPermit(env) && startCreated == StartsModel(env)
      modifies this`releases, this`finalized, callback`stopped
      ensures callback.Valid()
      ensures releases == old(releases) + (if TakesPermit(env) && HelpersEndWell(env) && A.Runs(env.release) then 1 else 0)
      ensures finalized == (old(finalized) || (HelpersEndWell(env) && !(TakesPermit(env) && env.release.CutOff?)))
      ensures HelpersEndWell(env) && callback.bound && env.cancelledAtEnd ==> callback.stopped
      ensures !(callback.bound && env.cancelledAtEnd) ==> callback.stopped == old(callback.stopped)
    {
      if startCreated && env.startLeftOver && env.startEnds == Raises {
        return;
      }
      if callback.bound && env.cancelledAtEnd {
        callback.Cancel();
      }
      if leaseStarted && env.leaseEnds == Raises {
        return;
      }
      if permitHeld {
        if A.Runs(env.release) {
          releases := releases + 1;
        }
        if env.release.CutOff? {
          return;
        }
      }
      finalized := true;
    }
  }

  /** The try block and its except clauses. */
  method Attempt(s: Session) returns (flow: Flow)
    requires s.Valid() && s.log == [] && s.saved == [] && !s.permitHeld && !s.leaseStarted && !s.startCreated
    requires s.callback.taken == [] && s.callback.pushed == [] && s.roundsTaken == 0 && s.env.registration == Accepted
    modifies s`log, s`parts, s`saved, s`cancellationPersisted, s`failuresRecorded, s`roundsTaken,
             s`prepared, s`answerStarted, s`startCreated, s`permitHeld, s`leaseStarted, s.callback
    ensures s.Valid() && s.callback.pushed <= s.env.duringStart + PacketsOf(s.env.rounds)
    ensures flow == Ended ==> PhaseOf(s.log) == Finished
    ensures flow == Closed ==> |s.log| == s.env.closeAt
    ensures flow == CancelledOut ==> AwaitCancelled(s.env) || s.roundsTaken == |s.env.rounds|
    ensures flow == Disconnected ==> exists r :: r in s.env.rounds && r.connection == Gone
    ensures flow != Proceed && flow != Raised
    ensures s.permitHeld == s.leaseStarted == TakesPermit(s.env) && s.startCreated == StartsModel(s.env)
  {
    flow := s.Body();
    flow := s.Rescue(flow);
  }

  /** A request whose task is registered. */
  method Serve(s: Session) returns (flow: Flow)
    requires s.Valid() && s.log == [] && s.saved == [] && !s.permitHeld && !s.leaseStarted && !s.startCreated
    requires s.callback.taken == [] && s.callback.pushed == [] && s.roundsTaken == 0 && s.env.registration == Accepted
    requires s.releases == 0 && !s.finalized
    modifies s, s.callback
    ensures s.Valid() && s.callback.pushed <= s.env.duringStart + PacketsOf(s.env.rounds)
    ensures flow == Ended ==> PhaseOf(s.log) == Finished
    ensures flow == Closed ==> |s.log| == s.env.closeAt
    ensures flow == CancelledOut ==> AwaitCancelled(s.env) || s.roundsTaken == |s.env.rounds|
    ensures flow == Disconnected ==> exists r :: r in s.env.rounds && r.connection == Gone
    ensures flow != Proceed && flow != Raised
    ensures s.permitHeld == s.leaseStarted == TakesPermit(s.env) && s.startCreated == StartsModel(s.env)
    ensures s.releases == if TakesPermit(s.env) && HelpersEndWell(s.env) && A.Runs(s.env.release) then 1 else 0
    ensures s.finalized <==> HelpersEndWell(s.env) && !(TakesPermit(s.env) && s.env.release.CutOff?)
    ensures s.finalized && s.callback.bound && s.env.cancelledAtEnd ==> s.callback.stopped
  {
    flow := Attempt(s);
    s.CleanUp();
  }

  lemma Appended(first: seq<Packet>, sent: seq<Packet>, before: seq<Packet>, during: seq<Packet>)
    ensures first + sent + before + during == first + (sent + (before + during))
  {}

  lemma PrefixBehind(first: seq<Packet>, a: seq<Packet>, b: seq<Packet>)
    requires a <= b
    ensures first + a <= first + b
  {}

  lemma SentSoFar(first: seq<Packet>, rounds: seq<Round>, i: nat)
    requires i < |rounds|
    ensures var sent := first + PacketsOf(rounds[..i]);
            && sent + rounds[i].before + rounds[i].during == first + PacketsOf(rounds[..i + 1])
            && sent + rounds[i].before + rounds[i].during <= first + PacketsOf(rounds)
            && sent + rounds[i].before <= sent + rounds[i].before + rounds[i].during
  {
    PacketsSnoc(rounds, i);
    PacketsGrow(rounds, i + 1);
    Appended(first, PacketsOf(rounds[..i]), rounds[i].before, rounds[i].during);
    PrefixBehind(first, PacketsOf(rounds[..i + 1]), PacketsOf(rounds));
  }

  /** A request under an id that is taken already. */
  method Refuse(s: Session) returns (flow: Flow)
    requires s.Valid() && s.log == [] && s.saved == [] && s.env.registration == Refused
    modifies s`log
    ensures s.Valid()
    ensures flow == Ended ==> PhaseOf(s.log) == Finished
    ensures flow == Closed ==> |s.log| == s.env.closeAt
    ensures flow == Ended || flow == Closed
    ensures s.env.closeAt == 0 ==> s.log == [ErrorEvent] + [Done]
  {
    flow := s.EmitLast(ErrorEvent);
  }

  method RunRequest(isSpace: char -> bool, capacity: nat, env: Env) returns (s: Session, flow: Flow)
    ensures s.Valid() && fresh(s) && s.isSpace == isSpace && s.env == env
    ensures flow == Ended ==> PhaseOf(s.log) == Finished
    ensures flow == Closed ==> |s.log| == env.closeAt
    ensures flow == Disconnected ==> exists r :: r in env.rounds && r.connection == Gone
    ensures flow == CancelledOut ==> AwaitCancelled(env) || s.roundsTaken == |env.rounds|
    ensures flow == Ended || flow == Closed || flow == Disconnected || flow == CancelledOut
    ensures s.permitHeld == s.leaseStarted == TakesPermit(env)
    ensures s.releases == if TakesPermit(env) && HelpersEndWell(env) && A.Runs(env.release) then 1 else 0
    ensures s.finalized <==> env.registration == Accepted && HelpersEndWell(env) && !(TakesPermit(env) && env.release.CutOff?)
    ensures s.callback.pushed <= env.duringStart + PacketsOf(env.rounds)
    ensures s.finalized && s.callback.bound && env.cancelledAtEnd ==> s.callback.stopped
  {
    s := new Session(isSpace, capacity, env);
    if env.registration == Refused {
      flow := Refuse(s);
    } else if env.registration == CutOff {
      flow := CancelledOut;
    } else {
      flow := Serve(s);
    }
  }

  /**
   * One request. Its events are a beginning of the protocol's grammar, and a whole word unless the client goes
   * away, the consumer closes the stream, or the request's own task is cancelled. A permit taken is given back, once,
   * exactly when no helper task ends with an error of its own and the release reaches the server or, locally, gets the lock.
   */
  method Stream(isSpace: char -> bool, capacity: nat, env: Env) returns (s: Session, flow: Flow)
    ensures s.Valid() && fresh(s) && s.isSpace == isSpace && s.env == env
    ensures flow == Ended ==> Word(s.log)
    ensures exists more :: Word(s.log + more)
    ensures flow == Closed ==> |s.log| == env.closeAt
    ensures flow == Disconnected ==> exists r :: r in env.rounds && r.connection == Gone
    ensures flow == CancelledOut ==> AwaitCancelled(env) || s.roundsTaken == |env.rounds|
    ensures flow == Ended || flow == Closed || flow == Disconnected || flow == CancelledOut
    ensures s.permitHeld == s.leaseStarted == TakesPermit(env)
    ensures s.releases == if TakesPermit(env) && HelpersEndWell(env) && A.Runs(env.release) then 1 else 0
    ensures s.finalized <==> env.registration == Accepted && HelpersEndWell(env) && !(TakesPermit(env) && env.release.CutOff?)
    ensures s.callback.pushed <= env.duringStart + PacketsOf(env.rounds)
    ensures s.finalized && s.callback.bound && env.cancelledAtEnd ==> s.callback.stopped
  {
    s, flow := RunRequest(isSpace, capacity, env);
    LegalIsPrefix(s.log);
    AcceptedIsWord(s.log);
  }

  /** A request whose task is cancelled while it waits to give its permit back: the permit stays out. */
  method CutReleaseKeepsPermit() returns (s: Session, flow: Flow)
    ensures TakesPermit(s.env) && HelpersEndWell(s.env)
    ensures s.permitHeld && s.releases == 0 && !s.finalized
  {
    var env := Env(
      Accepted, 0, false, Granted, Returns, true, Returns, false, true, Returns, Returns, [], true,
      [Round([Content("a"), Complete], Connected, Returns, false, [], false), Round([], Connected, Returns, false, [], false)],
      false, Returns, Returns, false, false, Returns, false, CancelRaised, A.CutOff(false));
    s, flow := Stream(_ => false, 8, env);
  }

  /** A lease task that ends with an error of its own does the same. */
  method FailedLeaseKeepsPermit() returns (s: Session, flow: Flow)
    ensures TakesPermit(s.env) && s.env.release == A.Answered
    ensures s.permitHeld && s.releases == 0 && !s.finalized
  {
    var env := Env(
      Accepted, 0, false, Granted, Returns, true, Returns, false, true, Returns, Returns, [], true,
      [Round([Content("a"), Complete], Connected, Returns, false, [], false), Round([], Connected, Returns, false, [], false)],
      false, Returns, Returns, false, false, Returns, false, Raises, A.Answered);
    s, flow := Stream(_ => false, 8, env);
  }
}
