/** What one pass of `runSession` does with each answer, written out event by event: which prompt it runs and which not,
    what it asks the brain, and what ends the run. */
module PassFacts {
  import opened Text
  import opened GuardPolicy
  import opened RunModel
  import opened Recovery
  import opened Orchestrator
  import opened TraceShape

  // ---- which prompt is called for ----------------------------------------------

  /** No seed prompt is left to deliver. */
  predicate PastSeed(s: Setup, r: Run) {
    r.core.seeded || s.seedPrompt == ""
  }

  /** Nothing has been said yet in the conversation. */
  predicate Blank(t: Tick, r: Run) {
    r.lastText == None && t.transcriptText == ""
  }

  /** The brain is asked in this pass. */
  predicate Asks(s: Setup, t: Tick, r: Run) {
    t.stop == None && PastSeed(s, r) && t.mode == Autopilot && !(Blank(t, r) && s.goal != "")
  }

  /** `stuckTurns` many turns or more in a row have left the files alone. */
  predicate Stalled(s: Setup, r: Run) {
    s.limits.stuckTurns > 0 && r.core.stuck.noChange >= s.limits.stuckTurns
  }

  /** The human is asked: the brain says so, or it says to go on although the files have stalled. */
  predicate AsksHuman(s: Setup, t: Tick, r: Run) {
    && Asks(s, t, r) && t.brain.Decides?
    && (t.brain.decision.Escalate? || (t.brain.decision.Continue? && Stalled(s, r)))
  }

  /** This pass is to run the prompt: the seed, what the user typed, the goal of a fresh run, what the brain said, or
      what the human chose. */
  predicate Calls(s: Setup, t: Tick, r: Run, p: string) {
    && t.stop == None
    && (|| (!r.core.seeded && s.seedPrompt != "" && p == s.seedPrompt)
        || (PastSeed(s, r) && t.mode == Manual && t.input == Ok(Message(p)))
        || (PastSeed(s, r) && t.mode == Autopilot && Blank(t, r) && p == s.goal != "")
        || (Asks(s, t, r) && t.brain.Decides? && t.brain.decision.Continue? && !Stalled(s, r)
            && p == t.brain.decision.prompt)
        || (AsksHuman(s, t, r) && t.resolution.Ok? && t.resolution.value.Choose? && p == t.resolution.value.prompt))
  }

  /** The state in which the prompt meets the guards: only sourcing it has left its events. */
  ghost predicate Sourced(r: Run, q: Run) {
    && r.core.trace <= q.core.trace && q.core.guards == r.core.guards
    && q.ran == r.ran && q.lastText == r.lastText && q.driven == r.driven
  }

  function With(r: Run, events: seq<Event>): Run {
    r.(core := r.core.(trace := r.core.trace + events))
  }

  /** The state after asking the brain: it is shown the last reply, or the transcript's if there is none. */
  function Asked(t: Tick, r: Run): Run {
    var shown := if r.lastText.Some? then r.lastText.value else t.transcriptText;
    r.(core := r.core.(asked := r.core.asked + [Query(shown, r.core.guards.turns)]))
  }

  lemma ContinueIsSourced(s: Setup, t: Tick, r: Run)
    requires Asks(s, t, r) && t.brain.Decides? && t.brain.decision.Continue? && !Stalled(s, r)
    ensures Source(s, t, r) == Prompt(With(Asked(t, r), [Decided(r.core.guards.turns, t.brain.decision)]).core,
                                      t.brain.decision.prompt)
  {
  }

  /** What is called for is what the guards get to see, ... */
  lemma CalledIsSourced(s: Setup, t: Tick, r: Run, p: string)
    requires Calls(s, t, r, p)
    ensures var x := Source(s, t, r); x.Prompt? && x.text == p && Sourced(r, r.(core := x.core))
  {
    if AsksHuman(s, t, r) && PastSeed(s, r) {
      HumanIsAsked(s, t, r);
    } else if Asks(s, t, r) && t.brain.Decides? && t.brain.decision.Continue? {
      ContinueIsSourced(s, t, r);
    }
  }

  /** ... and nothing else is. */
  lemma SourcedIsCalled(s: Setup, t: Tick, r: Run)
    requires t.stop == None && Source(s, t, r).Prompt?
    ensures Calls(s, t, r, Source(s, t, r).text)
  {
    if AsksHuman(s, t, r) {
      HumanIsAsked(s, t, r);
    } else if Asks(s, t, r) && t.brain.Decides? && t.brain.decision.Continue? {
      ContinueIsSourced(s, t, r);
    }
  }

  /** What running a prompt that the guards let through leaves. */
  lemma Executed(s: Setup, t: Tick, r: Run, p: string)
    requires GuardCheck(s.limits, r.core.guards, p, t.elapsedMs).1 == None
    ensures var n := r.core.guards.turns + 1;
            var h := Heal(n, p, t.turn);
            var f := Execute(s, t, r, p);
            && f.run.core.guards.turns == n && f.run.driven == r.driven + h.acts
            && (if h.outcome.Done? then
                  f.Live? && f.run.ran == r.ran + [Ran(p, h.outcome.prompt)] && f.run.lastText == Some(h.outcome.text)
                else f.Over? && f.run.ran == r.ran)
            && f.run.core.trace == r.core.trace + h.events +
                 (if h.outcome.Done? then [Turn(n, h.outcome.prompt, h.outcome.text)]
                  else if h.outcome.StoppedMidTurn? then [Stop(ByOperator("stopped by operator"), n)]
                  else Downfall(h.outcome.failure, n))
  {
  }

  /** The prompt called for meets the guards, and with them the driver: if the guards refuse it, the run ends with
      their reason and nothing is done to the driver. */
  lemma RefusedPromptEndsTheRun(s: Setup, t: Tick, r: Run, p: string)
    requires Calls(s, t, r, p)
    requires GuardCheck(s.limits, r.core.guards, p, t.elapsedMs).1.Some?
    ensures var f := Pass(s, t, r);
            var why := GuardCheck(s.limits, r.core.guards, p, t.elapsedMs).1.value;
            && f.Over? && f.run.ran == r.ran && f.run.driven == r.driven
            && r.core.trace < f.run.core.trace
            && f.run.core.trace[|f.run.core.trace| - 1] == Stop(why, r.core.guards.turns + 1)
  {
    CalledIsSourced(s, t, r, p);
  }

  /** If they let it through and the driver finishes the turn, that turn is reported, behind what sourcing and
      recovering it left, and is the next one run. */
  lemma FinishedPromptIsATurn(s: Setup, t: Tick, r: Run, p: string) returns (before: seq<Event>)
    requires Calls(s, t, r, p)
    requires GuardCheck(s.limits, r.core.guards, p, t.elapsedMs).1 == None
    requires Heal(r.core.guards.turns + 1, p, t.turn).outcome.Done?
    ensures var n := r.core.guards.turns + 1;
            var h := Heal(n, p, t.turn);
            var f := Pass(s, t, r).run;
            && f.ran == r.ran + [Ran(p, h.outcome.prompt)]
            && r.driven + h.acts <= f.driven
            && r.core.trace <= before
            && before + h.events + [Turn(n, h.outcome.prompt, h.outcome.text)] <= f.core.trace
  {
    CalledIsSourced(s, t, r, p);
    before := Source(s, t, r).core.trace;
    PassExecutes(s, t, r);
    FinishedIsKept(s, t, r, r.(core := Source(s, t, r).core), p, Pass(s, t, r));
  }

  lemma PassExecutes(s: Setup, t: Tick, r: Run)
    requires t.stop == None && Source(s, t, r).Prompt?
    ensures RunsThrough(s, t, r.(core := Source(s, t, r).core), Source(s, t, r).text, Pass(s, t, r))
  {
  }

  /** The prompt is executed and then what follows a turn is done. */
  predicate RunsThrough(s: Setup, t: Tick, r: Run, p: string, f: Flow) {
    var e := Execute(s, t, r, p);
    f == if e.Live? then Settle(s, t, e.run) else e
  }

  lemma FinishedIsKept(s: Setup, t: Tick, r: Run, q: Run, p: string, f: Flow)
    requires Sourced(r, q) && RunsThrough(s, t, q, p, f)
    requires GuardCheck(s.limits, r.core.guards, p, t.elapsedMs).1 == None
    requires Heal(r.core.guards.turns + 1, p, t.turn).outcome.Done?
    ensures var n := r.core.guards.turns + 1;
            var h := Heal(n, p, t.turn);
            && f.run.ran == r.ran + [Ran(p, h.outcome.prompt)]
            && r.driven + h.acts <= f.run.driven
            && q.core.trace + h.events + [Turn(n, h.outcome.prompt, h.outcome.text)] <= f.run.core.trace
  {
    Executed(s, t, q, p);
    SettleOnlyAdds(s, t, Execute(s, t, q, p).run);
  }

  /** If the driver gives up, the run ends with the failure; if the operator stopped the turn, with that. */
  lemma BrokenPromptEndsTheRun(s: Setup, t: Tick, r: Run, p: string) returns (before: seq<Event>)
    requires Calls(s, t, r, p)
    requires GuardCheck(s.limits, r.core.guards, p, t.elapsedMs).1 == None
    requires !Heal(r.core.guards.turns + 1, p, t.turn).outcome.Done?
    ensures var n := r.core.guards.turns + 1;
            var h := Heal(n, p, t.turn);
            var f := Pass(s, t, r);
            && f.Over? && f.run.ran == r.ran && f.run.driven == r.driven + h.acts
            && r.core.trace <= before
            && f.run.core.trace == before + h.events +
                 (if h.outcome.StoppedMidTurn? then [Stop(ByOperator("stopped by operator"), n)]
                  else if h.outcome.failure.kind == RateLimit then
                    [RateLimited(h.outcome.failure.message), Stop(Said(h.outcome.failure.message), n)]
                  else [Error(h.outcome.failure.message)])
  {
    CalledIsSourced(s, t, r, p);
    before := Source(s, t, r).core.trace;
    PassExecutes(s, t, r);
    Executed(s, t, r.(core := Source(s, t, r).core), p);
  }

  /** Nothing else is ever run: a pass that calls for no prompt leaves the turns and the driver alone. */
  lemma NothingElseRuns(s: Setup, t: Tick, r: Run)
    requires forall p :: !Calls(s, t, r, p)
    ensures Pass(s, t, r).run.ran == r.ran && Pass(s, t, r).run.driven == r.driven
  {
    if t.stop == None && Source(s, t, r).Prompt? {
      SourcedIsCalled(s, t, r);
      assert false;
    }
  }

  // ---- passes that run nothing ---------------------------------------------------

  predicate EndsWith<T(==)>(s: seq<T>, tail: seq<T>) {
    |tail| <= |s| && s[|s| - |tail|..] == tail
  }

  lemma Regroup(trace: seq<Event>, a: seq<Event>, b: seq<Event>)
    ensures trace + a + b == trace + (a + b)
  {
  }

  /** The events with which a failure ends a run. */
  function Downfall(f: Failure, turns: nat): seq<Event> {
    if f.kind == RateLimit then [RateLimited(f.message), Stop(Said(f.message), turns)] else [Error(f.message)]
  }

  /** A stop signal is looked at before anything else. */
  lemma SignalStops(s: Setup, t: Tick, r: Run, said: string)
    requires t.stop == Some(said)
    ensures Pass(s, t, r) == Over(With(r, [Stop(ByOperator(said), r.core.guards.turns)]))
  {
  }

  /** What else the user can do in manual mode. */
  lemma ManualAnswers(s: Setup, t: Tick, r: Run)
    requires t.stop == None && PastSeed(s, r) && t.mode == Manual
    ensures t.input == Ok(StopRequest) ==>
              Pass(s, t, r) == Over(With(r, [Stop(ByOperator("stopped by operator"), r.core.guards.turns)]))
    ensures t.input == Ok(SwitchMode) ==> Pass(s, t, r) == Live(r)
    ensures t.input.Throws? ==> Pass(s, t, r) == Over(With(r, Downfall(t.input.failure, r.core.guards.turns)))
  {
  }

  /** The brain is shown the last reply, or the transcript's if there is none, and asked exactly when it is its turn. */
  lemma AskedOnce(s: Setup, t: Tick, r: Run)
    ensures Pass(s, t, r).run.core.asked == if Asks(s, t, r) then Asked(t, r).core.asked else r.core.asked
  {
    if t.stop == None {
      SourceAsks(s, t, r);
      SourcedIsKept(s, t, r);
    }
  }

  lemma SourceAsks(s: Setup, t: Tick, r: Run)
    requires t.stop == None
    ensures Source(s, t, r).core.asked == if Asks(s, t, r) then Asked(t, r).core.asked else r.core.asked
  {
    if Asks(s, t, r) {
      var shown := if r.lastText.Some? then r.lastText.value else t.transcriptText;
      AskAsks(STALL_RATIONALE, s.limits.stuckTurns, r.core, shown, t);
    }
  }

  lemma AskAsks(rationale: string, threshold: int, c: Core, shown: string, t: Tick)
    ensures AskBrain(rationale, threshold, c, shown, t).core.asked == c.asked + [Query(shown, c.guards.turns)]
  {
    var asked := c.(asked := c.asked + [Query(shown, c.guards.turns)]);
    if t.brain.Decides? {
      var (c', d') := Redirect(rationale, threshold, asked, t.brain.decision);
      FollowAsksNoMore(c', d', t);
    }
  }

  lemma FollowAsksNoMore(c: Core, d: Decision, t: Tick)
    ensures Follow(c, d, t).core.asked == c.asked
  {
  }

  /** What sourcing leaves stays. */
  lemma SourcedIsKept(s: Setup, t: Tick, r: Run)
    requires t.stop == None
    ensures var x, f := Source(s, t, r), Pass(s, t, r).run;
            x.core.trace <= f.core.trace && f.core.asked == x.core.asked
  {
    var x := Source(s, t, r);
    if x.Prompt? {
      ExecuteOnlyAdds(s, t, r.(core := x.core), x.text);
      SettleOnlyAdds(s, t, Execute(s, t, r.(core := x.core), x.text).run);
    }
  }

  /** The poll that settles the wait for the local model: the first with a stop before or after it, or with good
      health. */
  predicate Settles(p: Poll) {
    p.stopBefore || p.stopAfter || p.healthy
  }

  lemma {:induction false} FirstSettles(polls: seq<Poll>, k: nat)
    requires k <= |polls| && (forall j :: 0 <= j < k ==> !Settles(polls[j])) && (k == |polls| || Settles(polls[k]))
    ensures PollBrain(polls) ==
            if k == |polls| then StillWaiting
            else if polls[k].stopBefore || polls[k].stopAfter then StoppedWaiting else Recovered
    decreases k
  {
    if k > 0 {
      assert forall j :: 0 <= j < k - 1 ==> polls[1..][j] == polls[j + 1];
      FirstSettles(polls[1..], k - 1);
    }
  }

  /** An unreachable model: the run waits, goes on without a turn once the model is healthy, and stops if the operator
      stops it first - before or after the wait that comes with each poll, and whatever the health then. */
  lemma UnreachableBrainIsWaitedFor(s: Setup, t: Tick, r: Run, k: nat)
    requires Asks(s, t, r) && t.brain.Unreachable?
    requires k <= |t.polls| && (forall j :: 0 <= j < k ==> !Settles(t.polls[j]))
             && (k == |t.polls| || Settles(t.polls[k]))
    ensures Pass(s, t, r) ==
            if k == |t.polls| then Hung(With(Asked(t, r), [Brain(false)]))
            else if t.polls[k].stopBefore || t.polls[k].stopAfter then
              Over(With(Asked(t, r), [Brain(false), Stop(ModelUnreachable, r.core.guards.turns)]))
            else Live(With(Asked(t, r), [Brain(false), Brain(true)]))
  {
    FirstSettles(t.polls, k);
    Regroup(r.core.trace, [Brain(false)], [Brain(true)]);
    Regroup(r.core.trace, [Brain(false)], [Stop(ModelUnreachable, r.core.guards.turns)]);
  }

  /** A brain call that fails for good ends the run; a decision to stop ends it with the brain's reason. */
  lemma BrainEndsTheRun(s: Setup, t: Tick, r: Run)
    requires Asks(s, t, r)
    ensures t.brain.BrainThrows? ==>
              Pass(s, t, r) == Over(With(Asked(t, r), Downfall(t.brain.failure, r.core.guards.turns)))
    ensures t.brain.Decides? && t.brain.decision.Finish? ==>
              Pass(s, t, r) == Over(With(Asked(t, r), [Decided(r.core.guards.turns, t.brain.decision),
                                                       Stop(Said(t.brain.decision.reason), r.core.guards.turns)]))
  {
    if t.brain.Decides? && t.brain.decision.Finish? {
      Regroup(r.core.trace, [Decided(r.core.guards.turns, t.brain.decision)],
              [Stop(Said(t.brain.decision.reason), r.core.guards.turns)]);
    }
  }

  /** A decision to go on is reported before its prompt is run. */
  lemma ContinueIsReported(s: Setup, t: Tick, r: Run)
    requires Asks(s, t, r) && t.brain.Decides? && t.brain.decision.Continue? && !Stalled(s, r)
    ensures r.core.trace + [Decided(r.core.guards.turns, t.brain.decision)] <= Pass(s, t, r).run.core.trace
  {
    ContinueIsSourced(s, t, r);
    SourcedIsKept(s, t, r);
  }

  // ---- the human is asked --------------------------------------------------------

  /** The decision the human gets to see: the brain's own, or the one that replaces a `continue` on stalled files. */
  function Escalation(s: Setup, t: Tick, r: Run): Decision
    requires AsksHuman(s, t, r)
  {
    if t.brain.decision.Escalate? then t.brain.decision
    else StallEscalation("let it proceed with the next step", t.brain.decision.prompt, r.core.stuck.noChange)
  }

  /** On stalled files: the question names the streak, and its options are the brain's own prompt and another one. */
  lemma StallOptions(prompt: string, streak: nat)
    ensures var d := StallEscalation("let it proceed with the next step", prompt, streak);
            && d.Escalate? && |d.options| == 2
            && d.options[0] == AttentionOption("Continue as planned", "let it proceed with the next step", prompt)
            && d.options[1] == AttentionOption("Try a different approach", "break the loop", TRY_DIFFERENTLY)
            && d.reason == "no file changes for " + Decimal(streak) + " turns — possible stall"
            && d.question == Some("This session may be stuck — no files have changed in the last " + Decimal(streak)
                                  + " turns. Continue, redirect, or stop?")
  {
  }

  /** The request the human is shown: the question, or the reason when there is none, and the options. */
  function Put(s: Setup, t: Tick, r: Run): Request
    requires AsksHuman(s, t, r)
  {
    var d := Escalation(s, t, r);
    Request(t.requestId, r.core.guards.turns, match d.question { case Some(q) => q case None => d.reason }, d.options)
  }

  /** The state after an escalation has been put: a stall is forgotten once it has been. */
  function Asking(s: Setup, t: Tick, r: Run): Run
    requires AsksHuman(s, t, r)
  {
    var stalled := t.brain.decision.Continue?;
    var q := Asked(t, r);
    With(q.(core := q.core.(stuck := if stalled then StuckState(r.core.stuck.lastFp, 0) else r.core.stuck,
                            stalls := if stalled then r.core.stalls + 1 else r.core.stalls)),
         [Decided(r.core.guards.turns, Escalation(s, t, r)), Attention(r.core.guards.turns, Put(s, t, r))])
  }

  /** An escalation is reported, put to the human, and answered: a stop ends the run at once, a failure ends it too, and
      a chosen prompt goes to the guards and the driver as it is. */
  lemma HumanIsObeyed(s: Setup, t: Tick, r: Run)
    requires AsksHuman(s, t, r)
    ensures t.resolution.Throws? ==>
              Pass(s, t, r) == Over(With(Asking(s, t, r), Downfall(t.resolution.failure, r.core.guards.turns)))
    ensures t.resolution == Ok(ChooseStop) ==>
              Pass(s, t, r) == Over(With(Asking(s, t, r), [AttentionResolved(Put(s, t, r), ChooseStop),
                                                           Stop(HumanSaidStop, r.core.guards.turns)]))
    ensures t.resolution.Ok? && t.resolution.value.Choose? ==>
              var q := With(Asking(s, t, r), [AttentionResolved(Put(s, t, r), t.resolution.value)]);
              Pass(s, t, r) == (var f := Execute(s, t, q, t.resolution.value.prompt);
                                if f.Live? then Settle(s, t, f.run) else f)
  {
    HumanIsAsked(s, t, r);
  }

  /** What the engine does with the answer to a request. */
  function Answered(c: Core, q: Request, t: Tick): Sourced {
    match t.resolution
    case Throws(f) => Failed(c, f)
    case Ok(ChooseStop) => Closed(Emit(c, [AttentionResolved(q, ChooseStop), Stop(HumanSaidStop, c.guards.turns)]))
    case Ok(Choose(p, name)) => Prompt(Emit(c, [AttentionResolved(q, Choose(p, name))]), p)
  }

  lemma HumanIsAsked(s: Setup, t: Tick, r: Run)
    requires AsksHuman(s, t, r)
    ensures Source(s, t, r) == Answered(Asking(s, t, r).core, Put(s, t, r), t)
  {
    var asked := Asked(t, r).core;
    var (c, d) := Redirect(STALL_RATIONALE, s.limits.stuckTurns, asked, t.brain.decision);
    assert d == Escalation(s, t, r);
    FollowPuts(c, d, t);
  }

  lemma FollowPuts(c: Core, d: Decision, t: Tick)
    requires d.Escalate?
    ensures var n := c.guards.turns;
            var q := Request(t.requestId, n, if d.question.Some? then d.question.value else d.reason, d.options);
            Follow(c, d, t) == Answered(Emit(c, [Decided(n, d), Attention(n, q)]), q, t)
  {
    var n := c.guards.turns;
    var q := Request(t.requestId, n, if d.question.Some? then d.question.value else d.reason, d.options);
    Regroup(c.trace, [Decided(n, d)], [Attention(n, q)]);
    Regroup(Emit(c, [Decided(n, d), Attention(n, q)]).trace, [AttentionResolved(q, ChooseStop)],
            [Stop(HumanSaidStop, n)]);
  }

  // ---- after a turn ----------------------------------------------------------------

  /** What a finished turn leaves: its reply, and the streak of turns that left the files alone. */
  lemma FinishedTurnIsKept(r: Run, prompt: string, reported: string, text: string, fingerprint: string)
    ensures var q := FinishTurn(r, prompt, reported, text, fingerprint);
            && q.lastText == Some(text)
            && q.core.stuck == StuckState(Some(fingerprint),
                 if r.core.stuck.lastFp == Some(fingerprint) then r.core.stuck.noChange + 1 else 0)
            && q.core.guards == r.core.guards && q.core.seeded == r.core.seeded && q.driven == r.driven
  {
  }

  /** A compaction: the handoff, "/compact" and the resume prompt go to the driver in this order, the turn count stays,
      and the resume turn's reply becomes the last reply - if all three finish. */
  lemma CompactionInOrder(s: Setup, r: Run, save: TurnScript, compact: TurnScript, resume: TurnScript)
    ensures var n := r.core.guards.turns;
            var x, y, z := Heal(n, s.savePrompt, save), Heal(n, "/compact", compact), Heal(n, s.resumePrompt, resume);
            var f := CompactContext(s, r, Compact(save, compact, resume));
            && f.run.ran == r.ran && f.run.core.guards == r.core.guards
            && (f.Live? <==> x.outcome.Done? && y.outcome.Done? && z.outcome.Done?)
            && f.run.driven == r.driven + x.acts + (if !x.outcome.Done? then [] else
                 y.acts + if y.outcome.Done? then z.acts else [])
            && (f.Live? ==>
                  && f.run.lastText == Some(z.outcome.text)
                  && f.run.core.trace == r.core.trace + [Compaction(false)] + x.events + y.events + z.events
                                         + [Compaction(true)])
            && (!f.Live? ==> f.run.lastText == r.lastText)
  {
    var n := r.core.guards.turns;
    var x, y, z := Heal(n, s.savePrompt, save), Heal(n, "/compact", compact), Heal(n, s.resumePrompt, resume);
    var saved := Maintain(r.(core := Emit(r.core, [Compaction(false)])), s.savePrompt, save);
    assert x.outcome.Done? ==> saved.Live? && saved.run.driven == r.driven + x.acts;
    if x.outcome.Done? {
      var compacted := Maintain(saved.run, "/compact", compact);
      if y.outcome.Done? {
        Thrice(r.driven, x.acts, y.acts, z.acts);
      }
    }
  }

  lemma Thrice<T>(a: seq<T>, b: seq<T>, c: seq<T>, d: seq<T>)
    ensures a + b + c + d == a + b + (c + d)
  {
  }

  /** The events with which a turn that does not finish ends a run. */
  function Unfinished(o: Outcome, turns: nat): seq<Event>
    requires !o.Done?
  {
    if o.StoppedMidTurn? then [Stop(ByOperator("stopped by operator"), turns)] else Downfall(o.failure, turns)
  }

  /** A maintenance turn that does not finish ends the run, as any turn would, and the ones after it are not run. */
  lemma FailedCompactionEndsTheRun(s: Setup, r: Run, context: ContextAnswer)
    requires !Settled(s, context, r.core.guards.turns)
    ensures var n := r.core.guards.turns;
            var f := CompactContext(s, r, context);
            && f.Over?
            && match context
               case ContextThrows(e) => f.run == With(r, Downfall(e, n)).(driven := f.run.driven)
               case Compact(save, compact, resume) =>
                 var x, y, z := Heal(n, s.savePrompt, save), Heal(n, "/compact", compact),
                                Heal(n, s.resumePrompt, resume);
                 f.run.core.trace == r.core.trace + [Compaction(false)] + x.events +
                   (if !x.outcome.Done? then Unfinished(x.outcome, n)
                    else y.events + if !y.outcome.Done? then Unfinished(y.outcome, n)
                                    else z.events + Unfinished(z.outcome, n))
               case Roomy => false
  {
    match context {
      case Compact(save, compact, resume) =>
        var n := r.core.guards.turns;
        var begun := With(r, [Compaction(false)]);
        var saved := Maintain(begun, s.savePrompt, save);
        if saved.Live? { FailedAfterSaving(s, saved.run, compact, resume); }
      case _ =>
    }
  }

  lemma FailedAfterSaving(s: Setup, r: Run, compact: TurnScript, resume: TurnScript)
    requires var n := r.core.guards.turns;
             !(Heal(n, "/compact", compact).outcome.Done? && Heal(n, s.resumePrompt, resume).outcome.Done?)
    ensures var n := r.core.guards.turns;
            var y, z := Heal(n, "/compact", compact), Heal(n, s.resumePrompt, resume);
            var f := CompactThenResume(s, r, compact, resume);
            && f.Over?
            && f.run.core.trace == r.core.trace + (y.events + if !y.outcome.Done? then Unfinished(y.outcome, n)
                                                              else z.events + Unfinished(z.outcome, n))
  {
    var n := r.core.guards.turns;
    var y, z := Heal(n, "/compact", compact), Heal(n, s.resumePrompt, resume);
    if y.outcome.Done? {
      Regroup(r.core.trace + y.events, z.events, Unfinished(z.outcome, n));
      Regroup(r.core.trace, y.events, z.events + Unfinished(z.outcome, n));
    } else {
      Regroup(r.core.trace, y.events, Unfinished(y.outcome, n));
    }
  }

  // ---- usage -----------------------------------------------------------------------

  /** What a reading of the limits leads to: a spent limit is announced and stops the run; one that is not lets it go on
      and is reported; none, or one not due, leaves everything as it is; a failure ends the run. */
  lemma UsageDecides(r: Run, u: UsageAnswer)
    ensures u.Spent? ==>
              CheckUsage(r, u) == Over(With(r,
                                            [UsageRead, LimitSpent(u.reason),
                                             Stop(Said(u.reason), r.core.guards.turns)]))
    ensures u == Within ==> CheckUsage(r, u) == Live(With(r, [UsageRead]))
    ensures u == NotDue || u == NoPanel ==> CheckUsage(r, u) == Live(r)
    ensures u.UsageThrows? ==> CheckUsage(r, u) == Over(With(r, Downfall(u.failure, r.core.guards.turns)))
  {
    if u.Spent? {
      Regroup(r.core.trace, [UsageRead, LimitSpent(u.reason)], [Stop(Said(u.reason), r.core.guards.turns)]);
    }
  }

  /** A limit that is spent before the first turn stops the run before it does anything. */
  lemma SpentAtTheStart(s: Setup, w: World)
    requires w.boot == None && w.firstUsage.Spent?
    ensures var f := SessionRun(s, w);
            && f.Over? && f.run.ran == [] && f.run.driven == [] && f.run.core.asked == []
            && f.run.core.trace == [Start(s.goal), UsageRead, LimitSpent(w.firstUsage.reason),
                                    Stop(Said(w.firstUsage.reason), 0)]
  {
    UsageDecides(Run(FreshCore(s.goal), [], None), w.firstUsage);
  }

  /** A limit found spent after a turn and its compaction stops the run right there. */
  lemma SpentAfterATurn(s: Setup, t: Tick, r: Run, p: string)
    requires Calls(s, t, r, p) && t.usage.Spent?
    requires GuardCheck(s.limits, r.core.guards, p, t.elapsedMs).1 == None
    requires Heal(r.core.guards.turns + 1, p, t.turn).outcome.Done?
    requires Settled(s, t.context, r.core.guards.turns + 1)
    ensures var f := Pass(s, t, r);
            && f.Over? && |f.run.ran| == |r.ran| + 1
            && EndsWith(f.run.core.trace, [UsageRead, LimitSpent(t.usage.reason),
                                           Stop(Said(t.usage.reason), r.core.guards.turns + 1)])
  {
    CalledIsSourced(s, t, r, p);
    PassExecutes(s, t, r);
    var q := r.(core := Source(s, t, r).core);
    Executed(s, t, q, p);
    SpentAfterCompaction(s, t, Execute(s, t, q, p).run);
  }

  lemma SpentAfterCompaction(s: Setup, t: Tick, r: Run)
    requires t.usage.Spent? && Settled(s, t.context, r.core.guards.turns)
    ensures var f := Settle(s, t, r);
            && f.Over? && f.run.ran == r.ran
            && EndsWith(f.run.core.trace, [UsageRead, LimitSpent(t.usage.reason),
                                           Stop(Said(t.usage.reason), r.core.guards.turns)])
  {
    if t.context.Compact? { CompactionInOrder(s, r, t.context.save, t.context.compact, t.context.resume); }
    var g := CompactContext(s, r, t.context);
    UsageDecides(g.run, t.usage);
  }

  /** A turn that finishes when nothing else is due leaves its own events and no others, and the run goes on. */
  lemma QuietTurn(s: Setup, t: Tick, r: Run, p: string) returns (before: seq<Event>)
    requires Calls(s, t, r, p) && t.context == Roomy && (t.usage == NotDue || t.usage == NoPanel || t.usage == Within)
    requires GuardCheck(s.limits, r.core.guards, p, t.elapsedMs).1 == None
    requires Heal(r.core.guards.turns + 1, p, t.turn).outcome.Done?
    ensures var n := r.core.guards.turns + 1;
            var h := Heal(n, p, t.turn);
            var f := Pass(s, t, r);
            && f.Live? && f.run.lastText == Some(h.outcome.text) && f.run.driven == r.driven + h.acts
            && r.core.trace <= before
            && f.run.core.trace == before + h.events + [Turn(n, h.outcome.prompt, h.outcome.text)]
                                   + if t.usage == Within then [UsageRead] else []
  {
    CalledIsSourced(s, t, r, p);
    before := Source(s, t, r).core.trace;
    PassExecutes(s, t, r);
    QuietIsKept(s, t, r.(core := Source(s, t, r).core), p, Pass(s, t, r));
  }

  lemma QuietIsKept(s: Setup, t: Tick, r: Run, p: string, f: Flow)
    requires RunsThrough(s, t, r, p, f)
    requires t.context == Roomy && (t.usage == NotDue || t.usage == NoPanel || t.usage == Within)
    requires GuardCheck(s.limits, r.core.guards, p, t.elapsedMs).1 == None
    requires Heal(r.core.guards.turns + 1, p, t.turn).outcome.Done?
    ensures var n := r.core.guards.turns + 1;
            var h := Heal(n, p, t.turn);
            && f.Live? && f.run.lastText == Some(h.outcome.text) && f.run.driven == r.driven + h.acts
            && f.run.core.trace == r.core.trace + h.events + [Turn(n, h.outcome.prompt, h.outcome.text)]
                                   + if t.usage == Within then [UsageRead] else []
  {
    Executed(s, t, r, p);
    UsageDecides(Execute(s, t, r, p).run, t.usage);
  }

  /** No compaction is due, or all three of its turns finish. */
  predicate Settled(s: Setup, context: ContextAnswer, n: nat) {
    context == Roomy
    || (&& context.Compact?
        && Heal(n, s.savePrompt, context.save).outcome.Done?
        && Heal(n, "/compact", context.compact).outcome.Done?
        && Heal(n, s.resumePrompt, context.resume).outcome.Done?)
  }

  /** What the run starts with: nothing has run, been asked or been done; a failure to start ends it. */
  lemma BootFailureEndsTheRun(s: Setup, w: World)
    requires w.boot.Some?
    ensures var f := SessionRun(s, w);
            && f.Over? && f.run.ran == [] && f.run.driven == []
            && f.run.core.trace == [Start(s.goal)] + Downfall(w.boot.value, 0)
  {
  }

  // ---- passes only add ---------------------------------------------------------------

  lemma MaintainOnlyAdds(r: Run, prompt: string, script: TurnScript)
    ensures var f := Maintain(r, prompt, script);
            r.core.trace <= f.run.core.trace && f.run.ran == r.ran && f.run.core.asked == r.core.asked
            && r.driven <= f.run.driven
  {
  }

  lemma CompactOnlyAdds(s: Setup, r: Run, context: ContextAnswer)
    ensures var f := CompactContext(s, r, context);
            r.core.trace <= f.run.core.trace && f.run.ran == r.ran && f.run.core.asked == r.core.asked
            && r.driven <= f.run.driven
  {
    match context {
      case Compact(save, compact, resume) =>
        var begun := r.(core := Emit(r.core, [Compaction(false)]));
        MaintainOnlyAdds(begun, s.savePrompt, save);
        var saved := Maintain(begun, s.savePrompt, save).run;
        MaintainOnlyAdds(saved, "/compact", compact);
        MaintainOnlyAdds(Maintain(saved, "/compact", compact).run, s.resumePrompt, resume);
      case _ =>
    }
  }

  lemma SettleOnlyAdds(s: Setup, t: Tick, r: Run)
    ensures var f := Settle(s, t, r);
            r.core.trace <= f.run.core.trace && f.run.ran == r.ran && f.run.core.asked == r.core.asked
            && r.driven <= f.run.driven
  {
    CompactOnlyAdds(s, r, t.context);
    UsageOnlyAdds(CompactContext(s, r, t.context).run, t.usage);
  }

  lemma UsageOnlyAdds(r: Run, u: UsageAnswer)
    ensures var f := CheckUsage(r, u);
            r.core.trace <= f.run.core.trace && f.run.ran == r.ran && f.run.core.asked == r.core.asked
            && f.run.driven == r.driven
  {
  }

  lemma ExecuteOnlyAdds(s: Setup, t: Tick, r: Run, prompt: string)
    ensures var f := Execute(s, t, r, prompt); r.core.trace <= f.run.core.trace && f.run.core.asked == r.core.asked
  {
  }
}
