/** From the chosen model to the client and the stored reply: the candidate loop and the stream together. */
module EndToEnd {

  import opened FirstToken
  import opened StreamGrammar
  import opened StreamChat

  // ---- A client sends nothing after its end ----

  ghost predicate Quiet(c: Candidate) {
    forall k | 0 <= k < |c.emitted| :: Ends(c.emitted[k]) ==> c.ended && k == |c.emitted| - 1
  }

  ghost predicate AllQuiet(s: Service) {
    forall j | 0 <= j < |s.candidates| :: Quiet(s.candidates[j])
  }

  lemma EmissionIsQuiet(c: Candidate, p: Packet)
    requires Quiet(c) && !c.ended
    ensures Quiet(Emitted(c, p))
  {}

  lemma NextIsQuiet(s: Service, step: Step)
    requires AllQuiet(s)
    ensures AllQuiet(Next(ASSUMED, s, step))
  {
    if step.Emit? && MayEmit(ASSUMED, s, step.candidate) {
      EmissionIsQuiet(s.candidates[step.candidate], step.packet);
    }
  }

  lemma {:induction false} EveryRunIsQuiet(n: nat, steps: seq<Step>)
    ensures AllQuiet(Run(ASSUMED, Fresh(n), steps))
  {
    if steps != [] {
      EveryRunIsQuiet(n, steps[..|steps| - 1]);
      NextIsQuiet(Run(ASSUMED, Fresh(n), steps[..|steps| - 1]), steps[|steps| - 1]);
    }
  }

  // ---- The stream alone ----

  lemma FollowingIsPrefix(shown: seq<Packet>, taken: seq<Packet>)
    requires Following(shown, taken)
    ensures shown <= taken
  {}

  /** The answer in the client's messages is a beginning of what reached the queue, without a gap, even after an overflow. */
  lemma AnswerHasNoGap(s: Session)
    requires s.Valid()
    ensures Shown(s.log) <= s.callback.pushed && Answer(Shown(s.log)) <= Answer(s.callback.pushed)
    ensures s.saved != [] ==> s.saved == [s.saved[0]] && s.saved[0].reply == Strip(s.isSpace, Answer(Shown(s.log))) && s.saved[0].reply != ""
    ensures Finish(false) in s.log ==> Shown(s.log) + [Complete] <= s.callback.pushed && |s.saved| == 1 && !s.saved[0].interrupted
  {
    var shown, taken, pushed := Shown(s.log), s.callback.taken, s.callback.pushed;
    FollowingIsPrefix(shown, taken);
    assert taken <= taken + s.callback.queue <= pushed;
    assert pushed[..|shown|] == shown;
    AnswerOfPrefix(pushed, |shown|);
    if Finish(false) in s.log {
      assert taken == shown + [Complete];
    }
  }

  // ---- Model, stream and storage ----

  lemma {:induction false} TaggedPrefix(i: nat, a: seq<Packet>, b: seq<Packet>)
    requires |a| <= |b| && Tagged(i, a) == Tagged(i, b)[..|a|]
    ensures a <= b
  {
    forall k | 0 <= k < |a|
      ensures a[k] == b[k]
    {
      TaggedAre(i, a, k);
      TaggedAre(i, b, k);
      assert Tagged(i, a)[k] == Tagged(i, b)[k];
    }
  }

  lemma PrefixIsTransitive(a: seq<Packet>, b: seq<Packet>, c: seq<Packet>)
    requires a <= b <= c
    ensures a <= c
  {}

  lemma CompleteIsLast(sent: Candidate, shown: seq<Packet>)
    requires Quiet(sent) && shown + [Complete] <= sent.emitted
    ensures sent.emitted == shown + [Complete]
  {
    assert sent.emitted[|shown|] == Complete;
  }

  /**
   * The stream hears the packets that the candidate loop forwards, in order. Then the client sees a beginning of what the
   * returned model sent; "finish" means that it has seen the whole answer; and a stored reply, finished or interrupted,
   * is the stripped text that the client has seen.
   */
  lemma AnswerIsOneModels(s: Session, n: nat, steps: seq<Step>)
    requires s.Valid()
    requires var f := Run(ASSUMED, Fresh(n), steps);
             && f.pc.Returned? && |s.callback.pushed| <= |f.log|
             && Tagged(f.pc.index, s.callback.pushed) == f.log[..|s.callback.pushed|]
    ensures var f := Run(ASSUMED, Fresh(n), steps);
            var i := f.pc.index;
            && i < |f.candidates|
            && Shown(s.log) <= f.candidates[i].emitted
            && Answer(Shown(s.log)) <= Answer(f.candidates[i].emitted)
            && (Finish(false) in s.log ==>
                  && f.candidates[i].emitted == Shown(s.log) + [Complete]
                  && s.saved == [Saved(Strip(s.isSpace, Answer(f.candidates[i].emitted)), false)])
  {
    var f := Run(ASSUMED, Fresh(n), steps);
    OneModelAnswers(n, steps);
    EveryRunIsQuiet(n, steps);
    var c := f.candidates[f.pc.index];
    TaggedPrefix(f.pc.index, s.callback.pushed, c.emitted);
    AnswerHasNoGap(s);
    PrefixIsTransitive(Shown(s.log), s.callback.pushed, c.emitted);
    AnswerOfPrefix(c.emitted, |Shown(s.log)|);
    assert c.emitted[..|Shown(s.log)|] == Shown(s.log);
    if Finish(false) in s.log {
      PrefixIsTransitive(Shown(s.log) + [Complete], s.callback.pushed, c.emitted);
      CompleteIsLast(c, Shown(s.log));
      AnswerSnoc(Shown(s.log), Complete);
      assert Answer(c.emitted) == Answer(Shown(s.log));
      assert s.saved == [s.saved[0]];
    }
  }
}
