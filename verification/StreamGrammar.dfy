/** The events of one streamed answer, and the order in which they may appear (agent_service/services/stream_chat_service.py). */
module StreamGrammar {

  import opened FirstToken

  datatype Event =
    | Meta
    | Message(packet: Packet)
    | CancelEvent(partial: bool)
    | ErrorEvent
    | Reject
    | Finish(rejected: bool)
    | Done

  // ---- The protocol as an automaton ----

  datatype Phase = Begin | Queued | Rejected | Preparing | Answering | Ending | Finished | Broken

  function Advance(p: Phase, e: Event): Phase {
    match (p, e)
    case (Begin, ErrorEvent) => Ending
    case (Begin, Meta) => Queued
    case (Queued, Meta) => Preparing
    case (Queued, CancelEvent(_)) => Ending
    case (Queued, ErrorEvent) => Ending
    case (Queued, Reject) => Rejected
    case (Rejected, Finish(true)) => Ending
    case (Preparing, Meta) => Answering
    case (Preparing, CancelEvent(_)) => Ending
    case (Preparing, ErrorEvent) => Ending
    case (Answering, Message(_)) => Answering
    case (Answering, CancelEvent(_)) => Ending
    case (Answering, ErrorEvent) => Ending
    case (Answering, Finish(false)) => Ending
    case (Ending, Done) => Finished
    case _ => Broken
  }

  function PhaseOf(log: seq<Event>): Phase {
    if log == [] then Begin else Advance(PhaseOf(log[..|log| - 1]), log[|log| - 1])
  }

  lemma PhaseSnoc(log: seq<Event>, e: Event)
    ensures PhaseOf(log + [e]) == Advance(PhaseOf(log), e)
  {
    assert (log + [e])[..|log|] == log;
  }

  // ---- The protocol as a grammar ----

  ghost predicate Messages(log: seq<Event>) {
    forall e | e in log :: e.Message?
  }

  ghost predicate Stop(e: Event) {
    e.CancelEvent? || e.ErrorEvent?
  }

  /**
   * error done
   * | meta ((cancel | error | reject finish) done
   *        | meta ((cancel | error) done
   *               | meta message* (cancel | finish | error) done))
   */
  ghost predicate Word(w: seq<Event>) {
    || w == [ErrorEvent, Done]
    || (exists s :: Stop(s) && w == [Meta, s, Done])
    || w == [Meta, Reject, Finish(true), Done]
    || (exists s :: Stop(s) && w == [Meta, Meta, s, Done])
    || (exists m, s :: Messages(m) && (Stop(s) || s == Finish(false)) && w == [Meta, Meta, Meta] + m + [s, Done])
  }

  /** What has been emitted in each phase, as a word of the grammar cut short. */
  ghost predicate Explains(p: Phase, log: seq<Event>) {
    match p
    case Begin => log == []
    case Queued => log == [Meta]
    case Rejected => log == [Meta, Reject]
    case Preparing => log == [Meta, Meta]
    case Answering => exists m :: Messages(m) && log == [Meta, Meta, Meta] + m
    case Ending => Word(log + [Done])
    case Finished => Word(log)
    case Broken => true
  }

  lemma EndingExplained(p: Phase, log: seq<Event>, e: Event)
    requires Explains(p, log) && Advance(p, e) == Ending
    ensures Word(log + [e] + [Done])
  {
    var w := log + [e] + [Done];
    match p
    case Begin => assert w == [ErrorEvent, Done];
    case Queued => assert Stop(e) && w == [Meta, e, Done];
    case Rejected => assert w == [Meta, Reject, Finish(true), Done];
    case Preparing => assert Stop(e) && w == [Meta, Meta, e, Done];
    case Answering =>
      var m :| Messages(m) && log == [Meta, Meta, Meta] + m;
      assert Messages(m) && (Stop(e) || e == Finish(false)) && w == [Meta, Meta, Meta] + m + [e, Done];
  }

  lemma StepExplained(p: Phase, log: seq<Event>, e: Event)
    requires Explains(p, log)
    ensures Explains(Advance(p, e), log + [e])
  {
    match Advance(p, e)
    case Ending => EndingExplained(p, log, e);
    case Answering =>
      if p == Preparing {
        assert Messages([]) && log + [e] == [Meta, Meta, Meta] + [];
      } else {
        var m :| Messages(m) && log == [Meta, Meta, Meta] + m;
        assert Messages(m + [e]) && log + [e] == [Meta, Meta, Meta] + (m + [e]);
      }
    case _ =>
  }

  lemma {:induction false} PhaseExplains(log: seq<Event>)
    ensures Explains(PhaseOf(log), log)
  {
    if log != [] {
      var n := |log| - 1;
      PhaseExplains(log[..n]);
      StepExplained(PhaseOf(log[..n]), log[..n], log[n]);
      assert log[..n] + [log[n]] == log;
    }
  }

  lemma {:induction false} MessagesKeepAnswering(m: seq<Event>)
    requires Messages(m)
    ensures PhaseOf([Meta, Meta, Meta] + m) == Answering
  {
    if m == [] {
      assert [Meta, Meta, Meta] + m == [] + [Meta] + [Meta] + [Meta];
      PhaseSnoc([], Meta);
      PhaseSnoc([] + [Meta], Meta);
      PhaseSnoc([] + [Meta] + [Meta], Meta);
    } else {
      var n := |m| - 1;
      MessagesKeepAnswering(m[..n]);
      PhaseSnoc([Meta, Meta, Meta] + m[..n], m[n]);
      assert [Meta, Meta, Meta] + m == ([Meta, Meta, Meta] + m[..n]) + [m[n]];
    }
  }

  lemma WordEnds(log: seq<Event>, s: Event)
    requires Advance(PhaseOf(log), s) == Ending
    ensures PhaseOf(log + [s, Done]) == Finished
  {
    PhaseSnoc(log, s);
    PhaseSnoc(log + [s], Done);
    assert log + [s] + [Done] == log + [s, Done];
  }

  lemma ShortPhases()
    ensures PhaseOf([]) == Begin && PhaseOf([Meta]) == Queued && PhaseOf([Meta, Meta]) == Preparing
    ensures PhaseOf([Meta, Reject]) == Rejected
  {
    PhaseSnoc([], Meta);
    PhaseSnoc([Meta], Meta);
    PhaseSnoc([Meta], Reject);
    assert [] + [Meta] == [Meta] && [Meta] + [Meta] == [Meta, Meta] && [Meta] + [Reject] == [Meta, Reject];
  }

  lemma WordFinishes(w: seq<Event>)
    requires Word(w)
    ensures PhaseOf(w) == Finished
  {
    ShortPhases();
    if w == [ErrorEvent, Done] {
      WordEnds([], ErrorEvent);
      assert [] + [ErrorEvent, Done] == w;
    } else if s :| Stop(s) && w == [Meta, s, Done] {
      WordEnds([Meta], s);
      assert [Meta] + [s, Done] == w;
    } else if w == [Meta, Reject, Finish(true), Done] {
      WordEnds([Meta, Reject], Finish(true));
      assert [Meta, Reject] + [Finish(true), Done] == w;
    } else if s :| Stop(s) && w == [Meta, Meta, s, Done] {
      WordEnds([Meta, Meta], s);
      assert [Meta, Meta] + [s, Done] == w;
    } else {
      var m, s :| Messages(m) && (Stop(s) || s == Finish(false)) && w == [Meta, Meta, Meta] + m + [s, Done];
      MessagesKeepAnswering(m);
      WordEnds([Meta, Meta, Meta] + m, s);
    }
  }

  /** The automaton accepts exactly the words of the grammar. */
  lemma AcceptedIsWord(log: seq<Event>)
    ensures PhaseOf(log) == Finished <==> Word(log)
  {
    PhaseExplains(log);
    if Word(log) {
      WordFinishes(log);
    }
  }

  lemma {:induction false} BrokenStaysBroken(log: seq<Event>, more: seq<Event>)
    requires PhaseOf(log) == Broken
    ensures PhaseOf(log + more) == Broken
  {
    if more == [] {
      assert log + more == log;
    } else {
      var n := |more| - 1;
      BrokenStaysBroken(log, more[..n]);
      PhaseSnoc(log + more[..n], more[n]);
      assert log + more == (log + more[..n]) + [more[n]];
    }
  }

  /** A way to finish from any phase. */
  function Rest(p: Phase): seq<Event> {
    match p
    case Begin => [ErrorEvent, Done]
    case Rejected => [Finish(true), Done]
    case Ending => [Done]
    case Finished => []
    case Broken => []
    case _ => [ErrorEvent, Done]
  }

  lemma RestFinishes(log: seq<Event>)
    requires PhaseOf(log) != Broken
    ensures PhaseOf(log + Rest(PhaseOf(log))) == Finished
  {
    match PhaseOf(log)
    case Ending => PhaseSnoc(log, Done);
    case Finished => assert log + [] == log;
    case Rejected => WordEnds(log, Finish(true));
    case _ => WordEnds(log, ErrorEvent);
  }

  /** It is not broken exactly on the prefixes of words. */
  lemma LegalIsPrefix(log: seq<Event>)
    ensures PhaseOf(log) != Broken <==> exists more :: Word(log + more)
  {
    if PhaseOf(log) != Broken {
      RestFinishes(log);
      AcceptedIsWord(log + Rest(PhaseOf(log)));
    }
    if more :| Word(log + more) {
      WordFinishes(log + more);
      if PhaseOf(log) == Broken {
        BrokenStaysBroken(log, more);
      }
    }
  }

  // ---- What the client has been shown ----

  function Shown(log: seq<Event>): seq<Packet> {
    if log == [] then []
    else Shown(log[..|log| - 1]) + (if log[|log| - 1].Message? then [log[|log| - 1].packet] else [])
  }

  lemma ShownSnoc(log: seq<Event>, e: Event)
    ensures Shown(log + [e]) == if e.Message? then Shown(log) + [e.packet] else Shown(log)
  {
    assert (log + [e])[..|log|] == log;
  }

  /** The text of the answer in a sequence of packets, without the thinking. */
  function Answer(packets: seq<Packet>): string {
    if packets == [] then ""
    else Answer(packets[..|packets| - 1]) + (if packets[|packets| - 1].Content? then packets[|packets| - 1].text else "")
  }

  lemma AnswerSnoc(packets: seq<Packet>, p: Packet)
    ensures Answer(packets + [p]) == Answer(packets) + (if p.Content? then p.text else "")
  {
    assert (packets + [p])[..|packets|] == packets;
  }

  lemma {:induction false} AnswerOfPrefix(packets: seq<Packet>, n: nat)
    requires n <= |packets|
    ensures Answer(packets[..n]) <= Answer(packets)
    decreases |packets| - n
  {
    if n == |packets| {
      assert packets[..n] == packets;
    } else {
      AnswerOfPrefix(packets, n + 1);
      assert packets[..n + 1] == packets[..n] + [packets[n]];
      AnswerSnoc(packets[..n], packets[n]);
    }
  }
}
