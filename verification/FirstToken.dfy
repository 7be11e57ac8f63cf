/** Choosing a model for one streamed answer (agent_service/services/stream_llm_service.py). */
module FirstToken {

  import opened Text

  datatype Packet = Content(text: string) | Thinking(text: string) | Complete | Error

  predicate Blank(p: Packet) {
    (p.Content? || p.Thinking?) && p.text == ""
  }

  predicate Ends(p: Packet) {
    p.Complete? || p.Error?
  }

  datatype First = Token | Empty | Failed

  // ---- The gate between one candidate and the caller ----

  datatype Gate = Gate(status: Option<First>, suppressed: bool, completed: bool, failedAfterOutput: bool)

  const OPEN := Gate(None, false, false, false)

  predicate Visible(g: Gate) {
    g.status == Some(Token)
  }

  function Marked(g: Gate, status: First): Gate {
    if g.status.None? then g.(status := Some(status)) else g
  }

  function GateAfter(g: Gate, p: Packet): Gate {
    match p
    case Complete => if Visible(g) then g.(completed := true) else Marked(g.(completed := true), Empty)
    case Error =>
      if !Visible(g) then Marked(g, Failed)
      else g.(failedAfterOutput := g.failedAfterOutput || !g.completed)
    case _ => if Blank(p) then g else Marked(g, Token)
  }

  predicate Forwards(g: Gate, p: Packet) {
    !g.suppressed && !Blank(p) && (Ends(p) ==> Visible(g))
  }

  /** Whether the gate itself reports a failure of the model. */
  predicate Reports(g: Gate, p: Packet) {
    p.Error? && Visible(g) && !g.completed && !g.failedAfterOutput
  }

  /** The caller's callback, with the candidate that each packet came from. */
  class Downstream {
    var log: seq<(nat, Packet)>

    constructor ()
      ensures log == []
    {
      log := [];
    }

    method Receive(candidate: nat, p: Packet)
      modifies this
      ensures log == old(log) + [(candidate, p)]
    {
      log := log + [(candidate, p)];
    }
  }

  class FirstTokenCallback {
    const candidate: nat
    const downstream: Downstream
    var firstPacketStatus: Option<First>
    var visibleOutput: bool
    var suppressed: bool
    var completed: bool
    var failedAfterOutput: bool
    var reportedFailures: nat

    ghost predicate Valid()
      reads this
    {
      visibleOutput == (firstPacketStatus == Some(Token))
    }

    function State(): Gate
      reads this
    {
      Gate(firstPacketStatus, suppressed, completed, failedAfterOutput)
    }

    constructor (candidate: nat, downstream: Downstream)
      ensures Valid() && State() == OPEN && this.downstream == downstream && this.candidate == candidate && reportedFailures == 0
    {
      this.candidate, this.downstream := candidate, downstream;
      firstPacketStatus, visibleOutput, suppressed, completed, failedAfterOutput, reportedFailures := None, false, false, false, false, 0;
    }

    method MarkFirstPacket(status: First)
      requires Valid()
      modifies this
      ensures Valid() && State() == Marked(old(State()), status) && reportedFailures == old(reportedFailures)
    {
      if firstPacketStatus.Some? {
        return;
      }
      firstPacketStatus := Some(status);
      if status == Token {
        visibleOutput := true;
      }
    }

    method OnOutput(p: Packet)
      requires Valid() && !Ends(p)
      modifies this, downstream
      ensures Valid() && State() == GateAfter(old(State()), p) && reportedFailures == old(reportedFailures)
      ensures downstream.log == old(downstream.log) + (if Forwards(old(State()), p) then [(candidate, p)] else [])
    {
      if p.text == "" {
        return;
      }
      MarkFirstPacket(Token);
      if !suppressed {
        downstream.Receive(candidate, p);
      }
    }

    method OnComplete()
      requires Valid()
      modifies this, downstream
      ensures Valid() && State() == GateAfter(old(State()), Complete) && reportedFailures == old(reportedFailures)
      ensures downstream.log == old(downstream.log) + (if Forwards(old(State()), Complete) then [(candidate, Complete)] else [])
    {
      completed := true;
      if !visibleOutput {
        MarkFirstPacket(Empty);
        return;
      }
      if !suppressed {
        downstream.Receive(candidate, Complete);
      }
    }

    method OnError()
      requires Valid()
      modifies this, downstream
      ensures Valid() && State() == GateAfter(old(State()), Error)
      ensures reportedFailures == old(reportedFailures) + (if Reports(old(State()), Error) then 1 else 0)
      ensures downstream.log == old(downstream.log) + (if Forwards(old(State()), Error) then [(candidate, Error)] else [])
    {
      if !visibleOutput {
        MarkFirstPacket(Failed);
        return;
      }
      if !completed && !failedAfterOutput {
        reportedFailures := reportedFailures + 1;
        failedAfterOutput := true;
      }
      if !suppressed {
        downstream.Receive(candidate, Error);
      }
    }

    method Suppress()
      requires Valid()
      modifies this
      ensures Valid() && State() == old(State()).(suppressed := true) && reportedFailures == old(reportedFailures)
    {
      suppressed := true;
    }
  }

  // ---- All candidates of one answer ----

  /**
   * `emitted` lists the packets of a candidate that are not blank, `ended` says that it has sent its last one,
   * and `successes` and `failures` count the reports about it to the health store.
   */
  datatype Candidate = Candidate(
    gate: Gate, started: bool, emitted: seq<Packet>, ended: bool, successes: nat, failures: nat)

  const UNTRIED := Candidate(OPEN, false, [], false, 0, 0)

  /** Where the service is: starting a candidate, waiting for its first packet, or done. */
  datatype Pc =
    | Starting(index: nat)
    | Waiting(index: nat)
    | Leaving(index: nat)
    | Returned(index: nat)
    | Exhausted
    | Interrupted(index: nat)

  datatype Service = Service(pc: Pc, candidates: seq<Candidate>, log: seq<(nat, Packet)>)

  /** `quiet`: a client sends nothing after its end. `atomic`: giving up on a candidate suppresses it at once. */
  datatype Rules = Rules(quiet: bool, atomic: bool)

  const ASSUMED := Rules(true, true)

  datatype Step =
    | Skip
    | StartOk
    | StartFails
    | Observe
    | TimeOut
    | Suppress
    | Interrupt
    | Emit(candidate: nat, packet: Packet)

  function Suppressed(c: Candidate): Candidate {
    c.(gate := c.gate.(suppressed := true))
  }

  function Abandoned(s: Service, i: nat): Service
    requires i < |s.candidates|
  {
    var c := Suppressed(s.candidates[i]);
    Service(Starting(i + 1), s.candidates[i := c.(started := true, failures := c.failures + 1)], s.log)
  }

  function Chosen(s: Service, i: nat): Service
    requires i < |s.candidates|
  {
    var c := s.candidates[i];
    var successes := if c.gate.failedAfterOutput then c.successes else c.successes + 1;
    s.(pc := Returned(i), candidates := s.candidates[i := c.(successes := successes)])
  }

  function Emitted(c: Candidate, p: Packet): Candidate {
    Candidate(
      GateAfter(c.gate, p), c.started, if Blank(p) then c.emitted else c.emitted + [p], c.ended || Ends(p),
      c.successes, if Reports(c.gate, p) then c.failures + 1 else c.failures)
  }

  predicate MayEmit(rules: Rules, s: Service, j: nat) {
    j < |s.candidates| && s.candidates[j].started && (rules.quiet ==> !s.candidates[j].ended)
  }

  function Sent(s: Service, j: nat, p: Packet): Service
    requires j < |s.candidates|
  {
    s.(candidates := s.candidates[j := Emitted(s.candidates[j], p)],
       log := if Forwards(s.candidates[j].gate, p) then s.log + [(j, p)] else s.log)
  }

  function Next(rules: Rules, s: Service, step: Step): Service {
    var n := |s.candidates|;
    match step
    case Skip =>
      if s.pc.Starting? then s.(pc := if s.pc.index < n then Starting(s.pc.index + 1) else Exhausted) else s
    case StartOk =>
      if s.pc.Starting? && s.pc.index < n
      then s.(pc := Waiting(s.pc.index), candidates := s.candidates[s.pc.index := s.candidates[s.pc.index].(started := true)])
      else s
    case StartFails =>
      if s.pc.Starting? && s.pc.index < n then Abandoned(s, s.pc.index) else s
    case Observe =>
      if s.pc.Waiting? && s.pc.index < n && s.candidates[s.pc.index].gate.status.Some?
      then if Visible(s.candidates[s.pc.index].gate) then Chosen(s, s.pc.index) else Abandoned(s, s.pc.index)
      else s
    case TimeOut =>
      if s.pc.Waiting? && s.pc.index < n && s.candidates[s.pc.index].gate.status.None?
      then if rules.atomic then Abandoned(s, s.pc.index) else s.(pc := Leaving(s.pc.index))
      else s
    case Suppress =>
      if s.pc.Leaving? && s.pc.index < n then Abandoned(s, s.pc.index) else s
    case Interrupt =>
      if (s.pc.Starting? || s.pc.Waiting?) && s.pc.index < n
      then s.(pc := Interrupted(s.pc.index), candidates := s.candidates[s.pc.index := Suppressed(s.candidates[s.pc.index])])
      else s
    case Emit(j, p) => if MayEmit(rules, s, j) then Sent(s, j, p) else s
  }

  function Run(rules: Rules, s: Service, steps: seq<Step>): Service {
    if steps == [] then s else Next(rules, Run(rules, s, steps[..|steps| - 1]), steps[|steps| - 1])
  }

  function Fresh(n: nat): (s: Service)
    ensures |s.candidates| == n
  {
    Service(Starting(0), seq(n, _ => UNTRIED), [])
  }

  // ---- No mixed answer ----

  function Tagged(i: nat, packets: seq<Packet>): (r: seq<(nat, Packet)>)
    ensures |r| == |packets|
  {
    if packets == [] then [] else Tagged(i, packets[..|packets| - 1]) + [(i, packets[|packets| - 1])]
  }

  lemma TaggedSnoc(i: nat, packets: seq<Packet>, p: Packet)
    ensures Tagged(i, packets + [p]) == Tagged(i, packets) + [(i, p)]
  {
    assert (packets + [p])[..|packets|] == packets;
  }

  lemma {:induction false} TaggedAre(i: nat, packets: seq<Packet>, k: nat)
    requires k < |packets|
    ensures Tagged(i, packets)[k] == (i, packets[k])
  {
    if k < |packets| - 1 {
      TaggedAre(i, packets[..|packets| - 1], k);
    }
  }

  /** Failures that the gate itself has reported. */
  function Late(c: Candidate): nat {
    if c.gate.failedAfterOutput then 1 else 0
  }

  /** Passed over, or given up after one report: whatever it still sends is held back. */
  ghost predicate Past(c: Candidate) {
    c == UNTRIED || (c.started && c.gate.suppressed && c.successes == 0 && c.failures == 1 + Late(c))
  }

  /** Under trial: nothing of it has been forwarded, or it is visible and everything has been. */
  ghost predicate OnTrial(c: Candidate, log: seq<(nat, Packet)>, i: nat) {
    && c.started && !c.gate.suppressed && c.successes == 0 && c.failures == Late(c)
    && (c.gate.status.None? ==> c.emitted == [] && !c.ended && log == [])
    && (c.gate.status.Some? && !Visible(c.gate) ==> c.ended && log == [])
    && (Visible(c.gate) ==> log == Tagged(i, c.emitted) && c.emitted != [])
    && (c.gate.failedAfterOutput ==> Visible(c.gate))
  }

  /** Chosen: everything it has sent has been forwarded, and it is credited unless it had failed already. */
  ghost predicate Winning(c: Candidate, log: seq<(nat, Packet)>, i: nat) {
    && c.started && !c.gate.suppressed && Visible(c.gate)
    && log == Tagged(i, c.emitted) && c.emitted != []
    && c.successes <= 1 && c.failures == Late(c) && c.successes + c.failures >= 1
  }

  /** Interrupted: what was forwarded is what it had sent up to then. */
  ghost predicate Cut(c: Candidate, log: seq<(nat, Packet)>, i: nat) {
    c.gate.suppressed && |log| <= |c.emitted| && log == Tagged(i, c.emitted[..|log|]) && c.successes == 0 && c.failures == Late(c)
  }

  ghost predicate Current(pc: Pc, c: Candidate, log: seq<(nat, Packet)>) {
    match pc
    case Starting(_) => c == UNTRIED && log == []
    case Waiting(i) => OnTrial(c, log, i)
    case Returned(i) => Winning(c, log, i)
    case Interrupted(i) => Cut(c, log, i)
    case _ => false
  }

  function Position(s: Service): nat {
    if s.pc.Exhausted? then |s.candidates| else s.pc.index
  }

  ghost predicate Sorted(s: Service) {
    && Position(s) <= |s.candidates|
    && (forall j | 0 <= j < Position(s) :: Past(s.candidates[j]))
    && (forall j | Position(s) < j < |s.candidates| :: s.candidates[j] == UNTRIED)
  }

  ghost predicate Inv(s: Service) {
    && Sorted(s)
    && (Position(s) < |s.candidates| ==> Current(s.pc, s.candidates[Position(s)], s.log))
    && (Position(s) == |s.candidates| ==> (s.pc.Starting? || s.pc.Exhausted?) && s.log == [])
  }

  lemma EmissionOnTrial(c: Candidate, log: seq<(nat, Packet)>, i: nat, p: Packet)
    requires OnTrial(c, log, i) && !c.ended
    ensures OnTrial(Emitted(c, p), if Forwards(c.gate, p) then log + [(i, p)] else log, i)
  {
    if Visible(c.gate) {
      LaterEmission(c, log, i, p);
    } else {
      FirstEmission(c, log, i, p);
    }
  }

  lemma LaterEmission(c: Candidate, log: seq<(nat, Packet)>, i: nat, p: Packet)
    requires OnTrial(c, log, i) && Visible(c.gate)
    ensures OnTrial(Emitted(c, p), if Forwards(c.gate, p) then log + [(i, p)] else log, i)
  {
    EmissionIsForwarded(c.gate, p);
    TaggedSnoc(i, c.emitted, p);
  }

  lemma FirstEmission(c: Candidate, log: seq<(nat, Packet)>, i: nat, p: Packet)
    requires OnTrial(c, log, i) && c.gate.status.None?
    ensures OnTrial(Emitted(c, p), if Forwards(c.gate, p) then log + [(i, p)] else log, i)
  {
    TaggedSnoc(i, [], p);
    assert [] + [p] == [p] && [] + [(i, p)] == [(i, p)];
  }

  lemma EmissionIsForwarded(g: Gate, p: Packet)
    requires Visible(g) && !g.suppressed
    ensures Forwards(g, p) <==> !Blank(p)
    ensures Visible(GateAfter(g, p)) && !GateAfter(g, p).suppressed
    ensures Reports(g, p) <==> GateAfter(g, p).failedAfterOutput && !g.failedAfterOutput
    ensures g.failedAfterOutput ==> GateAfter(g, p).failedAfterOutput
  {}

  lemma EmissionOfWinner(c: Candidate, log: seq<(nat, Packet)>, i: nat, p: Packet)
    requires Winning(c, log, i)
    ensures Winning(Emitted(c, p), if Forwards(c.gate, p) then log + [(i, p)] else log, i)
  {
    EmissionIsForwarded(c.gate, p);
    TaggedSnoc(i, c.emitted, p);
  }

  lemma EmissionHeldBack(c: Candidate, p: Packet)
    requires c.gate.suppressed
    ensures !Forwards(c.gate, p) && Emitted(c, p).gate.suppressed && Emitted(c, p).failures - c.failures == Late(Emitted(c, p)) - Late(c)
    ensures |c.emitted| <= |Emitted(c, p).emitted| && Emitted(c, p).emitted[..|c.emitted|] == c.emitted
  {}

  lemma EmissionAfterCut(c: Candidate, log: seq<(nat, Packet)>, i: nat, p: Packet)
    requires Cut(c, log, i)
    ensures Cut(Emitted(c, p), log, i)
  {
    EmissionHeldBack(c, p);
    var n := |c.emitted|;
    assert Emitted(c, p).emitted[..n][..|log|] == Emitted(c, p).emitted[..|log|];
    assert Emitted(c, p).emitted[..|log|] == c.emitted[..|log|];
  }

  lemma EmissionIsKept(s: Service, j: nat, p: Packet)
    requires Inv(s) && MayEmit(ASSUMED, s, j)
    ensures Inv(Sent(s, j, p))
  {
    var c := s.candidates[j];
    if j < Position(s) {
      EmissionHeldBack(c, p);
    } else {
      assert j == Position(s);
      match s.pc
      case Waiting(i) => EmissionOnTrial(c, s.log, i, p);
      case Returned(i) => EmissionOfWinner(c, s.log, i, p);
      case Interrupted(i) =>
        EmissionHeldBack(c, p);
        EmissionAfterCut(c, s.log, i, p);
    }
  }

  lemma InterruptionIsKept(s: Service)
    requires Inv(s) && (s.pc.Starting? || s.pc.Waiting?) && s.pc.index < |s.candidates|
    ensures Inv(Next(ASSUMED, s, Interrupt))
  {
    var c := s.candidates[s.pc.index];
    if s.pc.Waiting? && Visible(c.gate) {
      assert c.emitted[..|s.log|] == c.emitted;
    } else {
      assert s.log == [] && c.emitted[..0] == [];
    }
  }

  lemma NextIsKept(s: Service, step: Step)
    requires Inv(s)
    ensures Inv(Next(ASSUMED, s, step))
  {
    match step
    case Emit(j, p) =>
      if MayEmit(ASSUMED, s, j) {
        EmissionIsKept(s, j, p);
      }
    case Interrupt =>
      if (s.pc.Starting? || s.pc.Waiting?) && s.pc.index < |s.candidates| {
        InterruptionIsKept(s);
      }
    case _ =>
  }

  lemma {:induction false} EveryRunIsKept(n: nat, steps: seq<Step>)
    ensures Inv(Run(ASSUMED, Fresh(n), steps))
  {
    if steps != [] {
      EveryRunIsKept(n, steps[..|steps| - 1]);
      NextIsKept(Run(ASSUMED, Fresh(n), steps[..|steps| - 1]), steps[|steps| - 1]);
    }
  }

  /**
   * In every interleaving of the candidates' packets, the caller hears from one candidate only: the one whose
   * handle is returned, and from it everything; nobody while another candidate may still be tried.
   */
  lemma OneModelAnswers(n: nat, steps: seq<Step>)
    ensures var s := Run(ASSUMED, Fresh(n), steps);
            && (s.pc.Returned? ==> s.pc.index < |s.candidates| && s.log == Tagged(s.pc.index, s.candidates[s.pc.index].emitted) && s.log != [])
            && (s.pc.Waiting? || s.pc.Interrupted? ==>
                  s.pc.index < |s.candidates| && |s.log| <= |s.candidates[s.pc.index].emitted|
                  && s.log == Tagged(s.pc.index, s.candidates[s.pc.index].emitted[..|s.log|]))
            && (s.pc.Starting? || s.pc.Exhausted? ==> s.log == [])
            && !s.pc.Leaving?
  {
    EveryRunIsKept(n, steps);
    var s := Run(ASSUMED, Fresh(n), steps);
    if Position(s) < |s.candidates| {
      var e := s.candidates[Position(s)].emitted;
      assert e[..|e|] == e;
    }
  }

  /** Any two packets that the caller receives come from the same candidate. */
  lemma OneVoice(n: nat, steps: seq<Step>, a: nat, b: nat)
    requires var log := Run(ASSUMED, Fresh(n), steps).log; a < |log| && b < |log|
    ensures var log := Run(ASSUMED, Fresh(n), steps).log; log[a].0 == log[b].0
  {
    OneModelAnswers(n, steps);
    var s := Run(ASSUMED, Fresh(n), steps);
    var i := s.pc.index;
    TaggedAre(i, s.candidates[i].emitted[..|s.log|], a);
    TaggedAre(i, s.candidates[i].emitted[..|s.log|], b);
    assert s.candidates[i].emitted[..|s.candidates[i].emitted|] == s.candidates[i].emitted;
  }

  // ---- Reports ----

  /** The candidate answered and then broke down. */
  predicate FailsLate(emitted: seq<Packet>) {
    emitted != [] && !Ends(emitted[0]) && emitted[|emitted| - 1] == Error
  }

  /** What the gate remembers, in terms of the packets that went through it. */
  ghost predicate Remembers(c: Candidate) {
    && (c.gate.status.None? <==> c.emitted == [])
    && (Visible(c.gate) <==> c.emitted != [] && !Ends(c.emitted[0]))
    && (c.ended <==> c.emitted != [] && Ends(c.emitted[|c.emitted| - 1]))
    && (c.gate.completed ==> c.ended)
    && (c.gate.failedAfterOutput <==> FailsLate(c.emitted))
  }

  ghost predicate AllRemember(s: Service) {
    forall j | 0 <= j < |s.candidates| :: Remembers(s.candidates[j])
  }

  lemma EmissionIsRemembered(c: Candidate, p: Packet)
    requires Remembers(c) && !c.ended
    ensures Remembers(Emitted(c, p))
  {
    if c.emitted != [] && !Blank(p) {
      assert (c.emitted + [p])[0] == c.emitted[0];
    }
  }

  lemma NextIsRemembered(s: Service, step: Step)
    requires AllRemember(s)
    ensures AllRemember(Next(ASSUMED, s, step))
  {
    if step.Emit? && MayEmit(ASSUMED, s, step.candidate) {
      EmissionIsRemembered(s.candidates[step.candidate], step.packet);
    }
  }

  lemma {:induction false} EveryRunIsRemembered(n: nat, steps: seq<Step>)
    ensures AllRemember(Run(ASSUMED, Fresh(n), steps))
  {
    if steps != [] {
      EveryRunIsRemembered(n, steps[..|steps| - 1]);
      NextIsRemembered(Run(ASSUMED, Fresh(n), steps[..|steps| - 1]), steps[|steps| - 1]);
    }
  }

  /**
   * The returned model is credited at most once, and only it; it is debited exactly when it broke down after its answer
   * had begun. A model that was tried and given up is debited once, and twice exactly when it answered late and then
   * broke down.
   */
  lemma ReportsAreBounded(n: nat, steps: seq<Step>, j: nat)
    requires j < |Run(ASSUMED, Fresh(n), steps).candidates|
    ensures var s := Run(ASSUMED, Fresh(n), steps);
            var c := s.candidates[j];
            && c.successes <= 1
            && (c.successes == 1 ==> s.pc == Returned(j))
            && (s.pc == Returned(j) ==> c.failures == (if FailsLate(c.emitted) then 1 else 0))
            && (j < Position(s) && c.started ==> c.failures == (if FailsLate(c.emitted) then 2 else 1))
            && (!c.started ==> c.failures == 0)
  {
    EveryRunIsKept(n, steps);
    EveryRunIsRemembered(n, steps);
    var s := Run(ASSUMED, Fresh(n), steps);
    assert Remembers(s.candidates[j]);
    if j < Position(s) {
      assert Past(s.candidates[j]);
    }
  }

  function LateAnswer(): seq<Step> {
    [StartOk, TimeOut, Emit(0, Content("a")), Emit(0, Error)]
  }

  function LateStage(k: nat): Service {
    var gone := Suppressed(TRIED.(failures := 1));
    var late := gone.(gate := gone.gate.(status := Some(Token)), emitted := [Content("a")]);
    var failed := late.(gate := late.gate.(failedAfterOutput := true), emitted := [Content("a"), Error], ended := true, failures := 2);
    if k == 0 then Service(Starting(0), [UNTRIED], [])
    else if k == 1 then Service(Waiting(0), [TRIED], [])
    else if k == 2 then Service(Starting(1), [gone], [])
    else if k == 3 then Service(Starting(1), [late], [])
    else Service(Starting(1), [failed], [])
  }

  /** A model that times out, then answers and then breaks down is reported twice. */
  lemma {:induction false} LateAnswerIsReportedTwice(k: nat)
    requires k <= 4
    ensures Run(ASSUMED, Fresh(1), LateAnswer()[..k]) == LateStage(k)
    ensures LateStage(4).pc == Starting(1) && LateStage(4).candidates[0].failures == 2 && LateStage(4).log == []
  {
    if k == 0 {
      assert Fresh(1).candidates == [UNTRIED];
    } else {
      LateAnswerIsReportedTwice(k - 1);
      assert LateAnswer()[..k][..k - 1] == LateAnswer()[..k - 1];
      LateStep(k - 1);
    }
  }

  lemma LateStep(k: nat)
    requires k < 4
    ensures Next(ASSUMED, LateStage(k), LateAnswer()[k]) == LateStage(k + 1)
  {
    SameService(Next(ASSUMED, LateStage(k), LateAnswer()[k]), LateStage(k + 1));
  }

  // ---- What the assumptions are for ----

  /** Two services are the same when their parts are. */
  lemma SameService(s: Service, t: Service)
    requires s.pc == t.pc && |s.log| == |t.log| && |s.candidates| == |t.candidates|
    requires forall k | 0 <= k < |s.log| :: s.log[k] == t.log[k]
    requires forall j | 0 <= j < |s.candidates| :: s.candidates[j].(emitted := []) == t.candidates[j].(emitted := []) && s.candidates[j].emitted == t.candidates[j].emitted
    ensures s == t
  {
    forall j | 0 <= j < |s.candidates|
      ensures s.candidates[j] == t.candidates[j]
    {
      assert s.candidates[j].(emitted := []) == t.candidates[j].(emitted := []);
    }
    assert s.candidates == t.candidates && s.log == t.log;
  }

  const TRIED := UNTRIED.(started := true)

  function Noisy(): seq<Step> {
    [StartOk, Emit(0, Error), Emit(0, Content("a")), Observe, StartOk, Emit(1, Content("b")), Observe]
  }

  function NoisyStage(k: nat): Service {
    var failed := TRIED.(gate := OPEN.(status := Some(Failed)), emitted := [Error], ended := true);
    var noisy := failed.(emitted := [Error, Content("a")]);
    var gone := noisy.(gate := noisy.gate.(suppressed := true), failures := 1);
    var good := TRIED.(gate := OPEN.(status := Some(Token)), emitted := [Content("b")]);
    if k == 0 then Service(Starting(0), [UNTRIED, UNTRIED], [])
    else if k == 1 then Service(Waiting(0), [TRIED, UNTRIED], [])
    else if k == 2 then Service(Waiting(0), [failed, UNTRIED], [])
    else if k == 3 then Service(Waiting(0), [noisy, UNTRIED], [(0, Content("a"))])
    else if k == 4 then Service(Starting(1), [gone, UNTRIED], [(0, Content("a"))])
    else if k == 5 then Service(Waiting(1), [gone, TRIED], [(0, Content("a"))])
    else if k == 6 then Service(Waiting(1), [gone, good], [(0, Content("a")), (1, Content("b"))])
    else Service(Returned(1), [gone, good.(successes := 1)], [(0, Content("a")), (1, Content("b"))])
  }

  /** A client that goes on after reporting an error mixes its output into the next model's answer. */
  lemma {:induction false} NoisyClientMixesAnswers(atomic: bool, k: nat)
    requires k <= 7
    ensures Run(Rules(false, atomic), Fresh(2), Noisy()[..k]) == NoisyStage(k)
    ensures NoisyStage(7).pc == Returned(1) && NoisyStage(7).log == [(0, Content("a")), (1, Content("b"))]
  {
    if k == 0 {
      assert Fresh(2).candidates == [UNTRIED, UNTRIED];
    } else {
      NoisyClientMixesAnswers(atomic, k - 1);
      assert Noisy()[..k][..k - 1] == Noisy()[..k - 1];
      NoisyStep(atomic, k - 1);
    }
  }

  lemma NoisyStep(atomic: bool, k: nat)
    requires k < 7
    ensures Next(Rules(false, atomic), NoisyStage(k), Noisy()[k]) == NoisyStage(k + 1)
  {
    if k < 2 {
      NoisyBegins(atomic, k);
    } else if k < 4 {
      NoisyGoesOn(atomic, k);
    } else {
      NoisyIsReplaced(atomic, k);
    }
  }

  lemma NoisyBegins(atomic: bool, k: nat)
    requires 0 <= k < 2
    ensures Next(Rules(false, atomic), NoisyStage(k), Noisy()[k]) == NoisyStage(k + 1)
  {
    SameService(Next(Rules(false, atomic), NoisyStage(k), Noisy()[k]), NoisyStage(k + 1));
  }

  lemma NoisyGoesOn(atomic: bool, k: nat)
    requires 2 <= k < 4
    ensures Next(Rules(false, atomic), NoisyStage(k), Noisy()[k]) == NoisyStage(k + 1)
  {
    SameService(Next(Rules(false, atomic), NoisyStage(k), Noisy()[k]), NoisyStage(k + 1));
  }

  lemma NoisyIsReplaced(atomic: bool, k: nat)
    requires 4 <= k < 7
    ensures Next(Rules(false, atomic), NoisyStage(k), Noisy()[k]) == NoisyStage(k + 1)
  {
    SameService(Next(Rules(false, atomic), NoisyStage(k), Noisy()[k]), NoisyStage(k + 1));
  }

  function Hesitant(): seq<Step> {
    [StartOk, TimeOut, Emit(0, Content("a")), Suppress, StartOk, Emit(1, Content("b")), Observe]
  }

  function HesitantStage(k: nat): Service {
    var late := TRIED.(gate := OPEN.(status := Some(Token)), emitted := [Content("a")]);
    var gone := late.(gate := late.gate.(suppressed := true), failures := 1);
    var good := TRIED.(gate := OPEN.(status := Some(Token)), emitted := [Content("b")]);
    if k == 0 then Service(Starting(0), [UNTRIED, UNTRIED], [])
    else if k == 1 then Service(Waiting(0), [TRIED, UNTRIED], [])
    else if k == 2 then Service(Leaving(0), [TRIED, UNTRIED], [])
    else if k == 3 then Service(Leaving(0), [late, UNTRIED], [(0, Content("a"))])
    else if k == 4 then Service(Starting(1), [gone, UNTRIED], [(0, Content("a"))])
    else if k == 5 then Service(Waiting(1), [gone, TRIED], [(0, Content("a"))])
    else if k == 6 then Service(Waiting(1), [gone, good], [(0, Content("a")), (1, Content("b"))])
    else Service(Returned(1), [gone, good.(successes := 1)], [(0, Content("a")), (1, Content("b"))])
  }

  /** So does a first packet that arrives between giving up on a candidate and suppressing it. */
  lemma {:induction false} LateSuppressionMixesAnswers(k: nat)
    requires k <= 7
    ensures Run(Rules(true, false), Fresh(2), Hesitant()[..k]) == HesitantStage(k)
    ensures HesitantStage(7).pc == Returned(1) && HesitantStage(7).log == [(0, Content("a")), (1, Content("b"))]
  {
    if k == 0 {
      assert Fresh(2).candidates == [UNTRIED, UNTRIED];
    } else {
      LateSuppressionMixesAnswers(k - 1);
      assert Hesitant()[..k][..k - 1] == Hesitant()[..k - 1];
      HesitantStep(k - 1);
    }
  }

  lemma HesitantStep(k: nat)
    requires k < 7
    ensures Next(Rules(true, false), HesitantStage(k), Hesitant()[k]) == HesitantStage(k + 1)
  {
    if k < 2 {
      HesitantBegins(k);
    } else if k < 4 {
      HesitantGoesOn(k);
    } else {
      HesitantIsReplaced(k);
    }
  }

  lemma HesitantBegins(k: nat)
    requires 0 <= k < 2
    ensures Next(Rules(true, false), HesitantStage(k), Hesitant()[k]) == HesitantStage(k + 1)
  {
    SameService(Next(Rules(true, false), HesitantStage(k), Hesitant()[k]), HesitantStage(k + 1));
  }

  lemma HesitantGoesOn(k: nat)
    requires 2 <= k < 4
    ensures Next(Rules(true, false), HesitantStage(k), Hesitant()[k]) == HesitantStage(k + 1)
  {
    SameService(Next(Rules(true, false), HesitantStage(k), Hesitant()[k]), HesitantStage(k + 1));
  }

  lemma HesitantIsReplaced(k: nat)
    requires 4 <= k < 7
    ensures Next(Rules(true, false), HesitantStage(k), Hesitant()[k]) == HesitantStage(k + 1)
  {
    SameService(Next(Rules(true, false), HesitantStage(k), Hesitant()[k]), HesitantStage(k + 1));
  }

  /** All packets that the caller receives come from one candidate. */
  ghost predicate OneCandidate(rules: Rules, n: nat, steps: seq<Step>) {
    var log := Run(rules, Fresh(n), steps).log;
    forall a, b | 0 <= a < |log| && 0 <= b < |log| :: log[a].0 == log[b].0
  }

  /** Answers are never mixed exactly when clients are quiet after their end and giving up is atomic. */
  lemma OneVoiceExactly(rules: Rules)
    ensures (forall n, steps :: OneCandidate(rules, n, steps)) <==> rules.quiet && rules.atomic
  {
    if rules.quiet && rules.atomic {
      forall n: nat, steps: seq<Step>
        ensures OneCandidate(rules, n, steps)
      {
        var log := Run(rules, Fresh(n), steps).log;
        forall a, b | 0 <= a < |log| && 0 <= b < |log|
          ensures log[a].0 == log[b].0
        {
          OneVoice(n, steps, a, b);
        }
      }
    } else if !rules.quiet {
      NoisyClientMixesAnswers(rules.atomic, 7);
      assert Noisy()[..7] == Noisy();
      MixedLog(rules, Noisy());
    } else {
      LateSuppressionMixesAnswers(7);
      assert Hesitant()[..7] == Hesitant();
      MixedLog(rules, Hesitant());
    }
  }

  lemma MixedLog(rules: Rules, steps: seq<Step>)
    requires Run(rules, Fresh(2), steps).log == [(0, Content("a")), (1, Content("b"))]
    ensures !OneCandidate(rules, 2, steps)
  {
    var log := Run(rules, Fresh(2), steps).log;
    assert log[0].0 != log[1].0;
  }

  // ---- The candidate loop ----

  /**
   * What happens to one target: whether a client can stream, whether starting it fails, which packets arrive
   * while its first one is awaited (also from candidates given up before), and whether the caller is cancelled.
   */
  datatype Trial = Trial(callable: bool, startFails: bool, packets: seq<(nat, Packet)>, cancelled: bool)

  datatype Result = Chose(index: nat) | Unavailable(tried: bool) | CancelledByCaller

  lemma RunOne(rules: Rules, s: Service, steps: seq<Step>, step: Step)
    ensures Run(rules, s, steps + [step]) == Next(rules, Run(rules, s, steps), step)
  {
    assert (steps + [step])[..|steps|] == steps;
  }

  /** Packets that arrive while the service waits. */
  method Await(n: nat, s: Service, packets: seq<(nat, Packet)>, ghost before: seq<Step>) returns (r: Service, ghost steps: seq<Step>)
    requires s == Run(ASSUMED, Fresh(n), before) && s.pc.Waiting? && |s.candidates| == n
    ensures r == Run(ASSUMED, Fresh(n), steps) && r.pc == s.pc && |r.candidates| == n
  {
    r, steps := s, before;
    for k := 0 to |packets|
      invariant r == Run(ASSUMED, Fresh(n), steps) && r.pc == s.pc && |r.candidates| == n
    {
      var (j, p) := packets[k];
      RunOne(ASSUMED, Fresh(n), steps, Emit(j, p));
      steps := steps + [Emit(j, p)];
      if j < |r.candidates| && r.candidates[j].started && !r.candidates[j].ended {
        r := Sent(r, j, p);
      }
    }
  }

  datatype Verdict = GoOn | Choose | Stop

  /** One target. */
  method TryTarget(n: nat, i: nat, trial: Trial, before: Service, ghost soFar: seq<Step>)
    returns (verdict: Verdict, s: Service, ghost steps: seq<Step>)
    requires before == Run(ASSUMED, Fresh(n), soFar) && before.pc == Starting(i) && i < |before.candidates| == n
    ensures s == Run(ASSUMED, Fresh(n), steps) && |s.candidates| == n
    ensures verdict == GoOn ==> s.pc == Starting(i + 1)
    ensures verdict == Choose ==> s.pc == Returned(i) && trial.callable
    ensures verdict == Stop ==> s.pc == Interrupted(i) && trial.callable && trial.cancelled
  {
    s, steps := before, soFar;
    if !trial.callable {
      RunOne(ASSUMED, Fresh(n), steps, Skip);
      return GoOn, s.(pc := Starting(i + 1)), steps + [Skip];
    }
    if trial.startFails {
      RunOne(ASSUMED, Fresh(n), steps, StartFails);
      return GoOn, Abandoned(s, i), steps + [StartFails];
    }
    RunOne(ASSUMED, Fresh(n), steps, StartOk);
    s, steps := s.(pc := Waiting(i), candidates := s.candidates[i := s.candidates[i].(started := true)]), steps + [StartOk];
    verdict, s, steps := AwaitFirstPacket(n, i, trial, s, steps);
  }

  method AwaitFirstPacket(n: nat, i: nat, trial: Trial, before: Service, ghost soFar: seq<Step>)
    returns (verdict: Verdict, s: Service, ghost steps: seq<Step>)
    requires before == Run(ASSUMED, Fresh(n), soFar) && before.pc == Waiting(i) && i < |before.candidates| == n
    ensures s == Run(ASSUMED, Fresh(n), steps) && |s.candidates| == n
    ensures verdict == GoOn ==> s.pc == Starting(i + 1)
    ensures verdict == Choose ==> s.pc == Returned(i)
    ensures verdict == Stop ==> s.pc == Interrupted(i)
    ensures verdict == Stop <==> trial.cancelled
  {
    s, steps := Await(n, before, trial.packets, soFar);
    if trial.cancelled {
      RunOne(ASSUMED, Fresh(n), steps, Interrupt);
      return Stop, s.(pc := Interrupted(i), candidates := s.candidates[i := Suppressed(s.candidates[i])]), steps + [Interrupt];
    }
    verdict, s, steps := Decide(n, i, s, steps);
  }

  /** What the service makes of the first packet, or of its absence. */
  method Decide(n: nat, i: nat, before: Service, ghost soFar: seq<Step>)
    returns (verdict: Verdict, s: Service, ghost steps: seq<Step>)
    requires before == Run(ASSUMED, Fresh(n), soFar) && before.pc == Waiting(i) && i < |before.candidates| == n
    ensures s == Run(ASSUMED, Fresh(n), steps) && |s.candidates| == n
    ensures verdict == (if Visible(before.candidates[i].gate) then Choose else GoOn)
    ensures verdict == GoOn ==> s.pc == Starting(i + 1)
    ensures verdict == Choose ==> s.pc == Returned(i)
  {
    var status := before.candidates[i].gate.status;
    ghost var step := if status.Some? then Observe else TimeOut;
    RunOne(ASSUMED, Fresh(n), soFar, step);
    if status == Some(Token) {
      return Choose, Chosen(before, i), soFar + [step];
    }
    return GoOn, Abandoned(before, i), soFar + [step];
  }

  ghost predicate AnyCallable(trials: seq<Trial>, n: nat)
    requires n <= |trials|
  {
    exists k :: 0 <= k < n && trials[k].callable
  }

  lemma ReturnedIsHeard(n: nat, steps: seq<Step>, i: nat)
    requires Run(ASSUMED, Fresh(n), steps).pc == Returned(i)
    ensures var s := Run(ASSUMED, Fresh(n), steps);
            i < |s.candidates| && s.log == Tagged(i, s.candidates[i].emitted) && s.log != []
  {
    OneModelAnswers(n, steps);
  }

  lemma NobodyIsHeard(n: nat, steps: seq<Step>)
    requires Run(ASSUMED, Fresh(n), steps).pc.Starting?
    ensures Run(ASSUMED, Fresh(n), steps).log == []
  {
    OneModelAnswers(n, steps);
  }

  /** The loop over the targets; its state is one that a run of the steps above reaches. */
  method StartAnswer(trials: seq<Trial>) returns (result: Result, s: Service, ghost steps: seq<Step>)
    ensures s == Run(ASSUMED, Fresh(|trials|), steps) && |s.candidates| == |trials|
    ensures result.Chose? <==> s.pc.Returned?
    ensures result.Chose? ==> s.pc.index == result.index < |trials|
                              && s.log == Tagged(result.index, s.candidates[result.index].emitted) && s.log != []
    ensures result.Unavailable? ==> s.log == [] && (result.tried <==> AnyCallable(trials, |trials|))
    ensures result.CancelledByCaller? ==> exists k :: 0 <= k < |trials| && trials[k].cancelled
  {
    var n := |trials|;
    s, steps := Fresh(n), [];
    var tried := false;
    for i := 0 to n
      invariant s == Run(ASSUMED, Fresh(n), steps) && s.pc == Starting(i) && |s.candidates| == n
      invariant tried <==> AnyCallable(trials, i)
    {
      var verdict;
      verdict, s, steps := TryTarget(n, i, trials[i], s, steps);
      tried := tried || trials[i].callable;
      if verdict == Choose {
        ReturnedIsHeard(n, steps, i);
        return Chose(i), s, steps;
      }
      if verdict == Stop {
        return CancelledByCaller, s, steps;
      }
    }
    NobodyIsHeard(n, steps);
    RunOne(ASSUMED, Fresh(n), steps, Skip);
    return Unavailable(tried), s.(pc := Exhausted), steps + [Skip];
  }
}
