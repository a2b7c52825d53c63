/** What every trace of `runSession` looks like, over all scripts of answers. */
module TraceShape {
  import opened Text
  import opened GuardPolicy
  import opened RunModel
  import opened Recovery
  import opened RecoveryFacts
  import opened Orchestrator

  /** The brain or the human has said that the run is to stop. */
  predicate SaysStop(e: Event) {
    (e.Decided? && e.decision.Finish?) || (e.AttentionResolved? && e.resolution.ChooseStop?)
  }

  /** Events that can follow the start of a run without ending it. */
  predicate Inner(e: Event) {
    !e.Start? && !e.Stop? && !e.Error? && !e.LimitSpent? && !e.RateLimited? && !SaysStop(e)
  }

  ghost predicate AllInner(events: seq<Event>) {
    forall i :: 0 <= i < |events| ==> Inner(events[i])
  }

  /** A run in progress: one start event, then only inner events. */
  ghost predicate InProgress(trace: seq<Event>) {
    |trace| > 0 && trace[0].Start? && AllInner(trace[1..])
  }

  /** The ways a trace ends: with an error; with a stop by a guard or the operator; or with what makes the run stop and,
      right behind it, the stop that says so. */
  predicate Ending(tail: seq<Event>) {
    || (|tail| == 1 && tail[0].Error?)
    || (|tail| == 1 && tail[0].Stop? && (ByGuard(tail[0].why) || tail[0].why.ByOperator?))
    || (|tail| == 2 && tail[1].Stop? && LeadsTo(tail[0], tail[1].why))
  }

  predicate ByGuard(why: Reason) {
    why.HitMaxTurns? || why.HitWallClock? || why.PingPong?
  }

  predicate LeadsTo(e: Event, why: Reason) {
    match e
    case LimitSpent(reason) => why == Said(reason)
    case RateLimited(detail) => why == Said(detail)
    case Decided(_, Finish(reason)) => why == Said(reason)
    case AttentionResolved(_, ChooseStop) => why == HumanSaidStop
    case Brain(recovered) => !recovered && why == ModelUnreachable
    case _ => false
  }

  ghost predicate Finished(trace: seq<Event>) {
    exists k :: 0 <= k <= |trace| && InProgress(trace[..k]) && Ending(trace[k..])
  }

  /** The turn events are exactly those of the prompts run, numbered from one. */
  ghost predicate TurnsMatch(r: Run) {
    var turns := TurnsOf(r.core.trace);
    && |turns| == |r.ran|
    && forall i :: 0 <= i < |turns| ==> turns[i].Turn? && turns[i].n == i + 1 && turns[i].prompt == r.ran[i].reported
  }

  function Sourceds(ran: seq<Ran>): seq<string> {
    seq(|ran|, i requires 0 <= i < |ran| => ran[i].sourced)
  }

  ghost predicate ReportedFairly(x: Ran) {
    x.reported == x.sourced || x.reported == Reinjection(x.sourced)
  }

  /** Decisions of the brain and answers of the human. */
  predicate Steers(e: Event) {
    e.Decided? || e.AttentionResolved?
  }

  /** The turn number such an event carries. */
  function TurnOf(e: Event): nat
    requires Steers(e)
  {
    if e.Decided? then e.n else e.request.turn
  }

  /** The prompt it asks for, if it asks for one. */
  function Demanded(e: Event): Option<string>
    requires Steers(e)
  {
    if e.Decided? && e.decision.Continue? then Some(e.decision.prompt)
    else if e.AttentionResolved? && e.resolution.Choose? then Some(e.resolution.prompt)
    else None
  }

  /** Such an event carries the number of turns before it; the prompt of a `continue` decision, or of the option the
      human chose, is the very prompt the next turn was sourced from; and an answer comes right after its request. */
  ghost predicate DecisionsFollowed(r: Run) {
    forall i :: 0 <= i < |r.core.trace| && Steers(r.core.trace[i]) ==> Followed(r, i)
  }

  ghost predicate Followed(r: Run, i: nat)
    requires i < |r.core.trace| && Steers(r.core.trace[i])
  {
    var e := r.core.trace[i];
    && TurnOf(e) == |TurnsOf(r.core.trace[..i])|
    && (Demanded(e).Some? && TurnOf(e) < |r.ran| ==> r.ran[TurnOf(e)].sourced == Demanded(e).value)
    && (e.AttentionResolved? ==> Answers(r.core.trace[..i], e))
  }

  /** The request was put just before. */
  predicate Answers(before: seq<Event>, e: Event) {
    e.AttentionResolved? ==> before != [] && before[|before| - 1] == Attention(e.request.turn, e.request)
  }

  /** What holds of every state at the top of the loop. */
  ghost predicate Inv(limits: Limits, r: Run) {
    && InProgress(r.core.trace)
    && TurnsMatch(r)
    && Tracks(limits, r.core.guards, Sourceds(r.ran))
    && (forall i :: 0 <= i < |r.ran| ==> ReportedFairly(r.ran[i]))
    && DecisionsFollowed(r)
    && (forall i :: 0 <= i < |r.core.trace| && Steers(r.core.trace[i]) ==> TurnOf(r.core.trace[i]) < |r.ran|)
  }

  /** What holds of a run that ended: the same facts, with the guard's last refusal allowed for. */
  ghost predicate EndInv(limits: Limits, r: Run) {
    && Finished(r.core.trace)
    && Facts(limits, r)
    && CountsItsTurns(r)
  }

  /** The final stop reports the turns that ran, and one more when it was that turn's guard that stopped the run; after
      a failure or an operator's stop it can be either. */
  ghost predicate CountsItsTurns(r: Run) {
    r.core.trace != [] ==> CountsTurns(r.core.trace[|r.core.trace| - 1], |r.ran|)
  }

  predicate CountsTurns(e: Event, ran: nat) {
    e.Stop? ==>
      if ByGuard(e.why) then e.turns == ran + 1
      else if e.why.Said? || e.why.ByOperator? then ran <= e.turns <= ran + 1
      else e.turns == ran
  }

  ghost predicate Facts(limits: Limits, r: Run) {
    && TurnsMatch(r)
    && (|r.ran| == 0 || |r.ran| <= limits.maxTurns)
    && (limits.pingPongThreshold >= 1 ==> NoPingPong(Sourceds(r.ran), limits.pingPongThreshold))
    && (limits.pingPongThreshold <= 0 ==> r.ran == [])
    && (forall i :: 0 <= i < |r.ran| ==> ReportedFairly(r.ran[i]))
    && DecisionsFollowed(r)
  }

  lemma InvHasFacts(limits: Limits, r: Run)
    requires Inv(limits, r)
    ensures Facts(limits, r)
  {
    assert |Sourceds(r.ran)| == |r.ran|;
  }

  // ---- appending events ------------------------------------------------------

  /** Events that are no turns and do not steer leave every fact about turns and decisions alone. */
  predicate Aside(e: Event) {
    !e.Turn? && !Steers(e)
  }

  ghost predicate AllAside(events: seq<Event>) {
    forall i :: 0 <= i < |events| ==> Aside(events[i])
  }

  lemma {:induction false} AsidesHaveNoTurns(events: seq<Event>)
    requires AllAside(events)
    ensures TurnsOf(events) == []
  {
    if events != [] {
      AsidesHaveNoTurns(events[..|events| - 1]);
    }
  }

  lemma InProgressAppend(trace: seq<Event>, events: seq<Event>)
    requires InProgress(trace) && AllInner(events)
    ensures InProgress(trace + events)
  {
    assert (trace + events)[1..] == trace[1..] + events;
  }

  /** The facts that do not mention the guards survive asides. */
  lemma FactsAppend(r: Run, events: seq<Event>)
    requires TurnsMatch(r) && DecisionsFollowed(r)
    requires AllAside(events)
    ensures var r' := r.(core := Emit(r.core, events)); TurnsMatch(r') && DecisionsFollowed(r')
  {
    var trace := r.core.trace;
    var r' := r.(core := Emit(r.core, events));
    TurnsOfAppend(trace, events);
    AsidesHaveNoTurns(events);
    forall i | 0 <= i < |r'.core.trace| && Steers(r'.core.trace[i])
      ensures Followed(r', i)
    {
      assert i < |trace|;
      assert Followed(r, i);
      assert (trace + events)[..i] == trace[..i];
    }
  }

  lemma InvAppend(limits: Limits, r: Run, events: seq<Event>)
    requires Inv(limits, r)
    requires AllInner(events) && AllAside(events)
    ensures Inv(limits, r.(core := Emit(r.core, events)))
  {
    InProgressAppend(r.core.trace, events);
    FactsAppend(r, events);
    forall i | 0 <= i < |r.core.trace + events| && Steers((r.core.trace + events)[i])
      ensures TurnOf((r.core.trace + events)[i]) < |r.ran|
    {
      assert i < |r.core.trace|;
    }
  }

  lemma FinishAppend(limits: Limits, r: Run, tail: seq<Event>)
    requires InProgress(r.core.trace) && Facts(limits, r) && Ending(tail) && AllAside(tail)
    requires CountsTurns(tail[|tail| - 1], |r.ran|)
    ensures EndInv(limits, r.(core := Emit(r.core, tail)))
  {
    FactsAppend(r, tail);
    FinishedBy(r.core.trace, tail);
  }

  lemma FinishedBy(trace: seq<Event>, tail: seq<Event>)
    requires InProgress(trace) && Ending(tail)
    ensures Finished(trace + tail) && (trace + tail)[|trace + tail| - 1] == tail[|tail| - 1]
  {
    assert (trace + tail)[..|trace|] == trace && (trace + tail)[|trace|..] == tail;
  }

  /** A steering event keeps the facts when it carries the right number and nothing has run for it yet. */
  lemma SteerFacts(r: Run, e: Event)
    requires TurnsMatch(r) && DecisionsFollowed(r)
    requires Steers(e) && TurnOf(e) == |r.ran| && Answers(r.core.trace, e)
    ensures var r' := r.(core := Emit(r.core, [e])); TurnsMatch(r') && DecisionsFollowed(r')
  {
    var trace := r.core.trace;
    var r' := r.(core := Emit(r.core, [e]));
    TurnsOfAppend(trace, [e]);
    assert [e][..0] == [] && TurnsOf([e]) == [];
    forall i | 0 <= i < |r'.core.trace| && Steers(r'.core.trace[i])
      ensures Followed(r', i)
    {
      assert r'.core.trace[..i] == trace[..i];
      if i < |trace| {
        assert Followed(r, i);
      } else {
        assert trace[..i] == trace;
      }
    }
  }

  /** The run stops because the brain or the human said so. */
  lemma FinishSteered(limits: Limits, r: Run, e: Event, why: Reason)
    requires InProgress(r.core.trace) && Facts(limits, r)
    requires Steers(e) && LeadsTo(e, why) && TurnOf(e) == |r.ran| && Answers(r.core.trace, e)
    ensures EndInv(limits, r.(core := Emit(Emit(r.core, [e]), [Stop(why, |r.ran|)])))
  {
    var stop := Stop(why, |r.ran|);
    SteeredFacts(r, e, stop);
    FinishedByTwo(r.core.trace, e, stop);
    EndsWell(limits, r, r.(core := Emit(Emit(r.core, [e]), [stop])));
  }

  lemma SteeredFacts(r: Run, e: Event, stop: Event)
    requires TurnsMatch(r) && DecisionsFollowed(r) && stop.Stop?
    requires Steers(e) && TurnOf(e) == |r.ran| && Answers(r.core.trace, e)
    ensures var q := r.(core := Emit(Emit(r.core, [e]), [stop])); TurnsMatch(q) && DecisionsFollowed(q)
  {
    SteerFacts(r, e);
    FactsAppend(r.(core := Emit(r.core, [e])), [stop]);
  }

  lemma EndsWell(limits: Limits, r: Run, q: Run)
    requires Facts(limits, r) && q.ran == r.ran
    requires TurnsMatch(q) && DecisionsFollowed(q) && Finished(q.core.trace) && CountsItsTurns(q)
    ensures EndInv(limits, q)
  {
  }

  lemma FinishedByTwo(trace: seq<Event>, e: Event, stop: Event)
    requires InProgress(trace) && stop.Stop? && LeadsTo(e, stop.why)
    ensures Finished(trace + [e] + [stop]) && (trace + [e] + [stop])[|trace| + 1] == stop
  {
    FinishedBy(trace, [e, stop]);
    assert trace + [e] + [stop] == trace + [e, stop];
  }

  // ---- the phases of a pass --------------------------------------------------

  /** A state in which the next prompt has been sourced but not run: at most one open decision. */
  ghost predicate Mid(limits: Limits, r: Run, prompt: string) {
    && InProgress(r.core.trace)
    && TurnsMatch(r)
    && Tracks(limits, r.core.guards, Sourceds(r.ran))
    && (forall i :: 0 <= i < |r.ran| ==> ReportedFairly(r.ran[i]))
    && DecisionsFollowed(r)
    && OpenDecisions(r, prompt)
  }

  /** Every decision or answer not yet acted on is of this turn, and if it asks for a prompt it asks for `prompt`. */
  ghost predicate OpenDecisions(r: Run, prompt: string) {
    forall i :: 0 <= i < |r.core.trace| && Steers(r.core.trace[i]) ==> Pending(r, i, prompt)
  }

  ghost predicate Pending(r: Run, i: nat, prompt: string)
    requires i < |r.core.trace| && Steers(r.core.trace[i])
  {
    var e := r.core.trace[i];
    TurnOf(e) < |r.ran| || (TurnOf(e) == |r.ran| && (Demanded(e).Some? ==> Demanded(e).value == prompt))
  }

  lemma InvIsMid(limits: Limits, r: Run, prompt: string)
    requires Inv(limits, r)
    ensures Mid(limits, r, prompt)
  {
  }

  lemma MidHasFacts(limits: Limits, r: Run, prompt: string)
    requires Mid(limits, r, prompt)
    ensures Facts(limits, r)
  {
    assert |Sourceds(r.ran)| == |r.ran|;
  }

  lemma MidAppend(limits: Limits, r: Run, prompt: string, events: seq<Event>)
    requires Mid(limits, r, prompt)
    requires AllInner(events) && AllAside(events)
    ensures Mid(limits, r.(core := Emit(r.core, events)), prompt)
  {
    InProgressAppend(r.core.trace, events);
    FactsAppend(r, events);
    var r' := r.(core := Emit(r.core, events));
    forall i | 0 <= i < |r'.core.trace| && Steers(r'.core.trace[i])
      ensures Pending(r', i, prompt)
    {
      assert i < |r.core.trace|;
      assert Pending(r, i, prompt);
    }
  }

  /** Emitting a decision or an answer opens exactly that one. */
  lemma MidSteer(limits: Limits, r: Run, e: Event, prompt: string)
    requires Mid(limits, r, prompt)
    requires Steers(e) && Inner(e) && TurnOf(e) == |r.ran| && Answers(r.core.trace, e)
    requires Demanded(e).Some? ==> Demanded(e).value == prompt
    ensures Mid(limits, r.(core := Emit(r.core, [e])), prompt)
  {
    var r' := r.(core := Emit(r.core, [e]));
    InProgressAppend(r.core.trace, [e]);
    SteerFacts(r, e);
    forall i | 0 <= i < |r'.core.trace| && Steers(r'.core.trace[i])
      ensures Pending(r', i, prompt)
    {
      if i < |r.core.trace| { assert Pending(r, i, prompt); }
    }
  }

  /** What sourcing guarantees: an ended run is finished, a live one keeps its invariant. */
  ghost predicate SourcedWell(limits: Limits, r: Run, x: Sourced) {
    match x
    case Prompt(c, prompt) => Mid(limits, r.(core := c), prompt)
    case Reloop(c) => Inv(limits, r.(core := c))
    case Waiting(c) => Inv(limits, r.(core := c))
    case Closed(c) => EndInv(limits, r.(core := c))
    case Failed(c, _) => InProgress(c.trace) && Facts(limits, r.(core := c)) && c.guards.turns == |r.ran|
  }

  lemma InvCounts(limits: Limits, r: Run)
    requires Inv(limits, r)
    ensures r.core.guards.turns == |r.ran|
  {
    assert |Sourceds(r.ran)| == |r.ran|;
  }

  lemma WaitKeeps(limits: Limits, r: Run, polls: seq<Poll>)
    requires Inv(limits, r)
    ensures SourcedWell(limits, r, WaitForBrain(r.core, polls))
  {
    InvAppend(limits, r, [Brain(false)]);
    var down := r.(core := Emit(r.core, [Brain(false)]));
    match PollBrain(polls) {
      case Recovered => InvAppend(limits, down, [Brain(true)]);
      case StoppedWaiting => UnreachableStopKeeps(limits, r);
      case StillWaiting =>
    }
  }

  lemma UnreachableStopKeeps(limits: Limits, r: Run)
    requires Inv(limits, r)
    ensures EndInv(limits, r.(core := StopRun(Emit(r.core, [Brain(false)]), ModelUnreachable)))
  {
    var down, stop := Brain(false), Stop(ModelUnreachable, r.core.guards.turns);
    InvHasFacts(limits, r);
    InvCounts(limits, r);
    FinishAppend(limits, r, [down, stop]);
    assert r.core.trace + [down] + [stop] == r.core.trace + [down, stop];
  }

  lemma ResolveKeeps(limits: Limits, r: Run, d: Decision, t: Tick, prompt: string)
    requires Mid(limits, r, prompt) && d.Escalate? && r.core.guards.turns == |r.ran|
    requires t.resolution.Ok? && t.resolution.value.Choose? ==> prompt == t.resolution.value.prompt
    ensures SourcedWell(limits, r, Resolve(r.core, r.core.guards.turns, d, t))
  {
    var n := r.core.guards.turns;
    var request := Request(t.requestId, n, if d.question.Some? then d.question.value else d.reason, d.options);
    var ask := [Attention(n, request)];
    MidAppend(limits, r, prompt, ask);
    var asking := r.(core := Emit(r.core, ask));
    MidHasFacts(limits, asking, prompt);
    if t.resolution.Ok? {
      var e := AttentionResolved(request, t.resolution.value);
      assert Answers(asking.core.trace, e);
      if t.resolution.value.ChooseStop? {
        FinishSteered(limits, asking, e, HumanSaidStop);
      } else {
        MidSteer(limits, asking, e, prompt);
      }
    }
  }

  lemma FollowKeeps(limits: Limits, r: Run, d: Decision, t: Tick)
    requires Inv(limits, r)
    ensures SourcedWell(limits, r, Follow(r.core, d, t))
  {
    var e := Decided(r.core.guards.turns, d);
    var prompt := if d.Continue? then d.prompt else if t.resolution.Ok? && t.resolution.value.Choose?
      then t.resolution.value.prompt else "";
    InvIsMid(limits, r, prompt);
    InvCounts(limits, r);
    match d {
      case Finish(reason) =>
        InvHasFacts(limits, r);
        FinishSteered(limits, r, e, Said(reason));
      case Continue(_, _) =>
        MidSteer(limits, r, e, prompt);
      case Escalate(_, _, _) =>
        MidSteer(limits, r, e, prompt);
        ResolveKeeps(limits, r.(core := Emit(r.core, [e])), d, t, prompt);
    }
  }

  lemma InvIgnoresTheRest(limits: Limits, r: Run, c: Core)
    requires Inv(limits, r) && c.trace == r.core.trace && c.guards == r.core.guards
    ensures Inv(limits, r.(core := c))
  {
    var q := r.(core := c);
    forall i | 0 <= i < |q.core.trace| && Steers(q.core.trace[i])
      ensures Followed(q, i)
    {
      assert Followed(r, i);
    }
  }

  /** What is sourced only depends on a run's prompts and replies, not on the core it started from. */
  lemma SourcedWellFrom(limits: Limits, r: Run, c: Core, x: Sourced)
    requires SourcedWell(limits, r.(core := c), x)
    ensures SourcedWell(limits, r, x)
  {
    assert r.(core := c).(core := x.core) == r.(core := x.core);
  }

  lemma FollowFromKeeps(limits: Limits, r: Run, c: Core, d: Decision, t: Tick)
    requires Inv(limits, r) && c.trace == r.core.trace && c.guards == r.core.guards
    ensures SourcedWell(limits, r, Follow(c, d, t))
  {
    InvIgnoresTheRest(limits, r, c);
    FollowKeeps(limits, r.(core := c), d, t);
    SourcedWellFrom(limits, r, c, Follow(c, d, t));
  }

  lemma AskKeeps(limits: Limits, r: Run, rationale: string, lastText: string, t: Tick)
    requires Inv(limits, r)
    ensures SourcedWell(limits, r, AskBrain(rationale, limits.stuckTurns, r.core, lastText, t))
  {
    var asked := r.core.(asked := r.core.asked + [Query(lastText, r.core.guards.turns)]);
    InvIgnoresTheRest(limits, r, asked);
    var q := r.(core := asked);
    InvCounts(limits, r);
    match t.brain {
      case Unreachable => WaitKeeps(limits, q, t.polls);
      case BrainThrows(_) => InvHasFacts(limits, q);
      case Decides(d) =>
        var (c', d') := Redirect(rationale, limits.stuckTurns, asked, d);
        FollowFromKeeps(limits, q, c', d', t);
    }
    SourcedWellFrom(limits, r, asked, AskBrain(rationale, limits.stuckTurns, r.core, lastText, t));
  }

  lemma SourceKeeps(s: Setup, t: Tick, r: Run)
    requires Inv(s.limits, r)
    ensures SourcedWell(s.limits, r, Source(s, t, r))
  {
    var c := r.core;
    InvHasFacts(s.limits, r);
    InvCounts(s.limits, r);
    if !c.seeded && s.seedPrompt != "" {
      InvIsMid(s.limits, r.(core := c.(seeded := true)), s.seedPrompt);
    } else if t.mode == Manual {
      if t.input.Ok? && t.input.value.Message? {
        InvIsMid(s.limits, r, t.input.value.text);
      }
      FinishAppend(s.limits, r, [Stop(ByOperator("stopped by operator"), c.guards.turns)]);
    } else {
      var lastText := if r.lastText.Some? then r.lastText.value else t.transcriptText;
      InvIsMid(s.limits, r, s.goal);
      AskKeeps(s.limits, r, STALL_RATIONALE, lastText, t);
    }
  }

  // ---- running the prompt ----------------------------------------------------

  /** Recovery and gate events are inner asides. */
  lemma HealEventsInner(n: nat, prompt: string, script: TurnScript)
    ensures AllInner(Heal(n, prompt, script).events) && AllAside(Heal(n, prompt, script).events)
  {
    var events := Heal(n, prompt, script).events;
    forall i | 0 <= i < |events|
      ensures Inner(events[i]) && Aside(events[i])
    {
      HealEventKinds(n, prompt, script, events[i]);
    }
  }

  ghost predicate FlowsWell(limits: Limits, f: Flow) {
    if f.Over? then EndInv(limits, f.run) else Inv(limits, f.run)
  }

  lemma BreakOffFinishes(limits: Limits, r: Run, o: Outcome)
    requires InProgress(r.core.trace) && Facts(limits, r) && !o.Done?
    requires |r.ran| <= r.core.guards.turns <= |r.ran| + 1
    ensures FlowsWell(limits, BreakOff(r, o))
  {
    FinishAppend(limits, r, [Stop(ByOperator("stopped by operator"), r.core.guards.turns)]);
    if o.Gave? {
      RaiseFinishes(limits, r, o.failure);
    }
  }

  lemma RaiseFinishes(limits: Limits, r: Run, f: Failure)
    requires InProgress(r.core.trace) && Facts(limits, r)
    requires |r.ran| <= r.core.guards.turns <= |r.ran| + 1
    ensures EndInv(limits, r.(core := Raise(r.core, f)))
  {
    FinishAppend(limits, r, [RateLimited(f.message), Stop(Said(f.message), r.core.guards.turns)]);
    FinishAppend(limits, r, [Error(f.message)]);
  }

  /** The facts about turns and decisions do not mention the guards. */
  ghost predicate Ready(limits: Limits, g: GuardState, r: Run, prompt: string) {
    && InProgress(r.core.trace)
    && TurnsMatch(r)
    && (forall i :: 0 <= i < |r.ran| ==> ReportedFairly(r.ran[i]))
    && DecisionsFollowed(r)
    && OpenDecisions(r, prompt)
    && r.core.guards == g
    && Tracks(limits, g, Sourceds(r.ran) + [prompt])
    && Facts(limits, r)
  }

  lemma ReadyAppend(limits: Limits, g: GuardState, r: Run, prompt: string, events: seq<Event>)
    requires Ready(limits, g, r, prompt)
    requires AllInner(events) && AllAside(events)
    ensures Ready(limits, g, r.(core := Emit(r.core, events)), prompt)
  {
    InProgressAppend(r.core.trace, events);
    FactsAppend(r, events);
    var r' := r.(core := Emit(r.core, events));
    forall i | 0 <= i < |r'.core.trace| && Steers(r'.core.trace[i])
      ensures Pending(r', i, prompt)
    {
      assert i < |r.core.trace|;
      assert Pending(r, i, prompt);
    }
  }

  lemma ReadyIgnoresDriver(limits: Limits, g: GuardState, r: Run, prompt: string, driven: seq<Act>)
    requires Ready(limits, g, r, prompt)
    ensures Ready(limits, g, r.(driven := driven), prompt)
  {
    var q := r.(driven := driven);
    SameFacts(limits, r, q);
    SamePending(r, q, prompt);
  }

  lemma FinishTurnKeeps(limits: Limits, r: Run, prompt: string, reported: string, text: string, fingerprint: string)
    requires Ready(limits, r.core.guards, r, prompt)
    requires ReportedFairly(Ran(prompt, reported))
    ensures Inv(limits, FinishTurn(r, prompt, reported, text, fingerprint))
  {
    var r' := FinishTurn(r, prompt, reported, text, fingerprint);
    var trace := r.core.trace;
    var e := Turn(r.core.guards.turns, reported, text);
    InProgressAppend(trace, [e]);
    TurnsOfAppend(trace, [e]);
    assert [e][..0] == [];
    assert TurnsOf([e]) == [e];
    assert Sourceds(r'.ran) == Sourceds(r.ran) + [prompt];
    assert |Sourceds(r.ran)| == |r.ran|;
    forall i | 0 <= i < |r'.core.trace| && Steers(r'.core.trace[i])
      ensures Followed(r', i) && TurnOf(r'.core.trace[i]) < |r'.ran|
    {
      assert i < |trace| && r'.core.trace[..i] == trace[..i];
      assert Followed(r, i) && Pending(r, i, prompt);
    }
  }

  lemma ExecuteKeeps(s: Setup, t: Tick, r: Run, prompt: string)
    requires Mid(s.limits, r, prompt)
    ensures FlowsWell(s.limits, Execute(s, t, r, prompt))
  {
    var (g, stop) := GuardCheck(s.limits, r.core.guards, prompt, t.elapsedMs);
    var checked := r.(core := r.core.(guards := g));
    MidHasFacts(s.limits, r, prompt);
    SameFacts(s.limits, r, checked);
    if stop.Some? {
      FinishAppend(s.limits, checked, [Stop(stop.value, g.turns)]);
    } else {
      PassExtendsHistory(s.limits, r.core.guards, Sourceds(r.ran), prompt, t.elapsedMs);
      SamePending(r, checked, prompt);
      var h := Heal(g.turns, prompt, t.turn);
      HealEventsInner(g.turns, prompt, t.turn);
      ReadyAppend(s.limits, g, checked, prompt, h.events);
      ReadyIgnoresDriver(s.limits, g, checked.(core := Emit(checked.core, h.events)), prompt, r.driven + h.acts);
      var after := checked.(core := Emit(checked.core, h.events), driven := r.driven + h.acts);
      assert |Sourceds(r.ran)| == |r.ran|;
      if h.outcome.Done? {
        ReportedPrompt(g.turns, prompt, t.turn);
        FinishTurnKeeps(s.limits, after, prompt, h.outcome.prompt, h.outcome.text, t.fingerprint);
      } else {
        BreakOffFinishes(s.limits, after, h.outcome);
      }
    }
  }

  lemma SameFacts(limits: Limits, r: Run, q: Run)
    requires Facts(limits, r) && q.core.trace == r.core.trace && q.ran == r.ran
    ensures Facts(limits, q)
  {
    forall i | 0 <= i < |q.core.trace| && Steers(q.core.trace[i])
      ensures Followed(q, i)
    {
      assert Followed(r, i);
    }
  }

  lemma SamePending(r: Run, q: Run, prompt: string)
    requires OpenDecisions(r, prompt) && q.core.trace == r.core.trace && q.ran == r.ran
    ensures OpenDecisions(q, prompt)
  {
    forall i | 0 <= i < |q.core.trace| && Steers(q.core.trace[i])
      ensures Pending(q, i, prompt)
    {
      assert Pending(r, i, prompt);
    }
  }

  // ---- the guards after a turn -----------------------------------------------

  lemma MaintainKeeps(limits: Limits, r: Run, prompt: string, script: TurnScript)
    requires Inv(limits, r)
    ensures FlowsWell(limits, Maintain(r, prompt, script))
  {
    var h := Heal(r.core.guards.turns, prompt, script);
    HealEventsInner(r.core.guards.turns, prompt, script);
    InvAppend(limits, r, h.events);
    var after := r.(core := Emit(r.core, h.events));
    InvIgnoresDriver(limits, after, r.lastText, r.driven + h.acts);
    InvHasFacts(limits, after);
    InvCounts(limits, after);
    if !h.outcome.Done? { BreakOffFinishes(limits, after.(driven := r.driven + h.acts), h.outcome); }
  }

  /** Replies and what was done to the driver are no part of the invariant. */
  lemma InvIgnoresDriver(limits: Limits, r: Run, lastText: Option<string>, driven: seq<Act>)
    requires Inv(limits, r)
    ensures Inv(limits, r.(lastText := lastText, driven := driven))
  {
    var q := r.(lastText := lastText, driven := driven);
    forall i | 0 <= i < |q.core.trace| && Steers(q.core.trace[i])
      ensures Followed(q, i)
    {
      assert Followed(r, i);
    }
  }

  lemma ResumeKeeps(s: Setup, r: Run, resume: TurnScript)
    requires Inv(s.limits, r)
    ensures FlowsWell(s.limits, Resume(s, r, resume))
  {
    MaintainKeeps(s.limits, r, s.resumePrompt, resume);
    var resumed := Maintain(r, s.resumePrompt, resume);
    if resumed.Live? {
      var q := resumed.run;
      InvAppend(s.limits, q, [Compaction(true)]);
      var h := Heal(r.core.guards.turns, s.resumePrompt, resume);
      InvIgnoresDriver(s.limits, q.(core := Emit(q.core, [Compaction(true)])), Some(h.outcome.text), q.driven);
    }
  }

  lemma CompactThenResumeKeeps(s: Setup, r: Run, compact: TurnScript, resume: TurnScript)
    requires Inv(s.limits, r)
    ensures FlowsWell(s.limits, CompactThenResume(s, r, compact, resume))
  {
    MaintainKeeps(s.limits, r, "/compact", compact);
    var compacted := Maintain(r, "/compact", compact);
    if compacted.Live? { ResumeKeeps(s, compacted.run, resume); }
  }

  lemma CompactKeeps(s: Setup, r: Run, context: ContextAnswer)
    requires Inv(s.limits, r)
    ensures FlowsWell(s.limits, CompactContext(s, r, context))
  {
    match context {
      case Roomy =>
      case ContextThrows(f) =>
        InvHasFacts(s.limits, r);
        InvCounts(s.limits, r);
        RaiseFinishes(s.limits, r, f);
      case Compact(save, compact, resume) =>
        InvAppend(s.limits, r, [Compaction(false)]);
        var begun := r.(core := Emit(r.core, [Compaction(false)]));
        MaintainKeeps(s.limits, begun, s.savePrompt, save);
        var saved := Maintain(begun, s.savePrompt, save);
        if saved.Live? { CompactThenResumeKeeps(s, saved.run, compact, resume); }
    }
  }

  lemma SpentKeeps(limits: Limits, r: Run, reason: string)
    requires Inv(limits, r)
    ensures FlowsWell(limits, CheckUsage(r, Spent(reason)))
  {
    InvHasFacts(limits, r);
    InvCounts(limits, r);
    InvAppend(limits, r, [UsageRead]);
    var read := r.(core := Emit(r.core, [UsageRead]));
    InvHasFacts(limits, read);
    FinishAppend(limits, read, [LimitSpent(reason), Stop(Said(reason), r.core.guards.turns)]);
    ThreeEvents(r.core.trace, UsageRead, LimitSpent(reason), Stop(Said(reason), r.core.guards.turns));
  }

  lemma ThreeEvents(trace: seq<Event>, x: Event, y: Event, z: Event)
    ensures trace + [x] + [y, z] == trace + [x, y] + [z]
  {
  }

  lemma UsageKeeps(limits: Limits, r: Run, u: UsageAnswer)
    requires Inv(limits, r)
    ensures FlowsWell(limits, CheckUsage(r, u))
  {
    InvHasFacts(limits, r);
    InvCounts(limits, r);
    InvAppend(limits, r, [UsageRead]);
    var read := r.(core := Emit(r.core, [UsageRead]));
    InvHasFacts(limits, read);
    match u {
      case Spent(reason) => SpentKeeps(limits, r, reason);
      case UsageThrows(f) => RaiseFinishes(limits, r, f);
      case _ =>
    }
  }

  lemma PassKeeps(s: Setup, t: Tick, r: Run)
    requires Inv(s.limits, r)
    ensures FlowsWell(s.limits, Pass(s, t, r))
  {
    InvCounts(s.limits, r);
    if t.stop.Some? {
      InvHasFacts(s.limits, r);
      FinishAppend(s.limits, r, [Stop(ByOperator(t.stop.value), r.core.guards.turns)]);
    } else {
      SourceKeeps(s, t, r);
      match Source(s, t, r) {
        case Failed(c, f) => RaiseFinishes(s.limits, r.(core := c), f);
        case Prompt(c, prompt) =>
          ExecuteKeeps(s, t, r.(core := c), prompt);
          var f := Execute(s, t, r.(core := c), prompt);
          if f.Live? {
            CompactKeeps(s, f.run, t.context);
            var g := CompactContext(s, f.run, t.context);
            if g.Live? {
              UsageKeeps(s.limits, g.run, t.usage);
            }
          }
        case _ =>
      }
    }
  }

  lemma {:induction false} LoopKeeps(s: Setup, ticks: seq<Tick>, r: Run)
    requires Inv(s.limits, r)
    ensures FlowsWell(s.limits, Loop(s, ticks, r))
  {
    if ticks != [] {
      PassKeeps(s, ticks[0], r);
      var f := Pass(s, ticks[0], r);
      if f.Live? {
        LoopKeeps(s, ticks[1..], f.run);
      }
    }
  }

  // ---- the theorems ----------------------------------------------------------

  lemma FreshInv(s: Setup)
    ensures Inv(s.limits, Run(FreshCore(s.goal), [], None))
  {
    var start := Run(FreshCore(s.goal), [], None);
    assert start.core.trace[..0] == [];
    assert TurnsOf(start.core.trace) == [];
    assert start.core.trace[1..] == [];
    assert Sourceds(start.ran) == [];
  }

  /** Every run, finished or cut short by its script, has the shape and the facts. */
  lemma EveryRunIsWellFormed(s: Setup, w: World)
    ensures var f := SessionRun(s, w);
            && (if f.Over? then Finished(f.run.core.trace) && CountsItsTurns(f.run) else InProgress(f.run.core.trace))
            && Facts(s.limits, f.run)
  {
    var start := Run(FreshCore(s.goal), [], None);
    FreshInv(s);
    if w.boot.Some? {
      InvHasFacts(s.limits, start);
      RaiseFinishes(s.limits, start, w.boot.value);
    } else {
      UsageKeeps(s.limits, start, w.firstUsage);
      var f := CheckUsage(start, w.firstUsage);
      if f.Live? {
        LoopKeeps(s, w.ticks, f.run);
      }
      var g := SessionRun(s, w);
      if !g.Over? {
        InvHasFacts(s.limits, g.run);
      }
    }
  }

  lemma InProgressEvents(trace: seq<Event>, i: nat)
    requires InProgress(trace) && i < |trace|
    ensures if i == 0 then trace[i].Start? else Inner(trace[i])
  {
    if i > 0 {
      assert trace[1..][i - 1] == trace[i];
    }
  }

  lemma FinishedEvents(trace: seq<Event>, i: nat)
    requires Finished(trace) && i < |trace|
    ensures if i == 0 then trace[i].Start?
            else if i + 1 == |trace| then IsEnd(trace[i])
            else if i + 2 == |trace| && trace[i + 1].Stop? then !trace[i].Start? && !IsEnd(trace[i])
            else Inner(trace[i])
  {
    var k :| 0 <= k <= |trace| && InProgress(trace[..k]) && Ending(trace[k..]);
    assert k >= 1;
    if i < k {
      InProgressEvents(trace[..k], i);
      assert trace[..k][i] == trace[i];
    } else {
      assert trace[k..][i - k] == trace[i];
    }
    if k + 2 == |trace| && i + 2 == |trace| {
      assert trace[k..][1] == trace[i + 1];
    }
  }

  /** `start` comes first and only once; the only end event is the last event, and there is one
      exactly when the run is over. */
  lemma StartFirstEndLast(s: Setup, w: World, i: nat)
    requires i < |SessionRun(s, w).run.core.trace|
    ensures var f := SessionRun(s, w);
            var trace := f.run.core.trace;
            && (trace[i].Start? <==> i == 0)
            && (IsEnd(trace[i]) <==> f.Over? && i == |trace| - 1)
  {
    EveryRunIsWellFormed(s, w);
    var f := SessionRun(s, w);
    if f.Over? {
      FinishedEvents(f.run.core.trace, i);
      FinishedIsLong(f.run.core.trace);
    } else {
      InProgressEvents(f.run.core.trace, i);
    }
  }

  lemma FinishedIsLong(trace: seq<Event>)
    requires Finished(trace)
    ensures |trace| >= 2
  {
  }

  /** A spent limit or a rate-limit failure is announced only right before the final stop. */
  lemma LimitThenStop(s: Setup, w: World, i: nat)
    requires i < |SessionRun(s, w).run.core.trace|
    requires var e := SessionRun(s, w).run.core.trace[i]; e.LimitSpent? || e.RateLimited?
    ensures var trace := SessionRun(s, w).run.core.trace; i + 2 == |trace| && trace[i + 1].Stop?
  {
    EveryRunIsWellFormed(s, w);
    var f := SessionRun(s, w);
    if f.Over? {
      FinishedEvents(f.run.core.trace, i);
    } else {
      InProgressEvents(f.run.core.trace, i);
    }
  }

  /** Turn events are numbered 1..k without gaps and k never exceeds the turn limit. */
  lemma TurnsAreNumbered(s: Setup, w: World, i: nat)
    requires i < |TurnsOf(SessionRun(s, w).run.core.trace)|
    ensures var e := TurnsOf(SessionRun(s, w).run.core.trace)[i]; e.Turn? && e.n == i + 1 <= s.limits.maxTurns
  {
    EveryRunIsWellFormed(s, w);
  }

  /** No `pingPongThreshold` consecutive turns were sourced from the same prompt up to case,
      white space and punctuation; without a positive threshold no turn runs at all. */
  lemma NoPingPongRuns(s: Setup, w: World)
    ensures var ran := Sourceds(SessionRun(s, w).run.ran);
            var n := s.limits.pingPongThreshold;
            if n >= 1 then NoPingPong(ran, n) else ran == []
  {
    EveryRunIsWellFormed(s, w);
  }
}
