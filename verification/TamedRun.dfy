/** The OpenCode engine in every environment: it is the Claude engine in an environment where every failure is one that
    nothing can be done about, the usage and context guards are off, and there is no transcript. */
module TamedRun {
  import opened Text
  import opened GuardPolicy
  import opened RunModel
  import opened Recovery
  import opened Orchestrator
  import opened OpenCodeLoop
  import opened LockStep

  // ---- the tamed environment ---------------------------------------------------------

  function TameFailure(f: Failure): Failure {
    f.(kind := Other)
  }

  function TameAnswer<T>(a: Answer<T>): Answer<T> {
    match a
    case Throws(f) => Throws(TameFailure(f))
    case Ok(x) => Ok(x)
  }

  function TameBrain(a: BrainAnswer): BrainAnswer {
    if a.BrainThrows? then BrainThrows(TameFailure(a.failure)) else a
  }

  /** The driver fails for good, and nobody stops the turn after that. */
  function TameAttempt(a: Attempt): Attempt {
    a.(turn := if a.turn.Fails? then Fails(a.turn.gates, TameFailure(a.turn.failure)) else a.turn,
       stopAfterFailure := false)
  }

  function TameTurn(script: TurnScript): TurnScript {
    TurnScript(script.offset, (k: nat) => TameAttempt(script.attempts(k)))
  }

  function TameTick(t: Tick): Tick {
    t.(input := TameAnswer(t.input), transcriptText := "", brain := TameBrain(t.brain),
       resolution := TameAnswer(t.resolution), turn := TameTurn(t.turn), context := Roomy, usage := NotDue)
  }

  function TameTicks(ticks: seq<Tick>): seq<Tick> {
    seq(|ticks|, i requires 0 <= i < |ticks| => TameTick(ticks[i]))
  }

  function Tame(w: World): World {
    World(if w.boot.Some? then Some(TameFailure(w.boot.value)) else None, NotDue, TameTicks(w.ticks))
  }

  lemma TameIsPlain(w: World)
    ensures PlainWorld(Tame(w)) && forall t :: t in Tame(w).ticks ==> LocalFailures(t)
  {
    forall t | t in Tame(w).ticks
      ensures Plain(t) && LocalFailures(t)
    {
      var i :| 0 <= i < |TameTicks(w.ticks)| && t == TameTicks(w.ticks)[i];
      TameTickIsPlain(w.ticks[i]);
    }
  }

  lemma TameTickIsPlain(t: Tick)
    ensures Plain(TameTick(t)) && LocalFailures(TameTick(t))
  {
    assert TameTick(t).turn.attempts(0) == TameAttempt(t.turn.attempts(0));
  }

  // ---- the OpenCode engine does not see the difference -------------------------------

  /** The same prompt, or the same end up to the kind of the failure. */
  ghost predicate AlikeSourced(a: Sourced, b: Sourced) {
    a == b || (a.Failed? && b == Failed(a.core, TameFailure(a.failure)))
  }

  lemma AskSeesNothing(rationale: string, threshold: int, c: Core, shown: string, t: Tick)
    ensures AlikeSourced(AskBrain(rationale, threshold, c, shown, t),
                         AskBrain(rationale, threshold, c, shown, TameTick(t)))
  {
    if t.brain.Decides? {
      var asked := c.(asked := c.asked + [Query(shown, c.guards.turns)]);
      var (c', d') := Redirect(rationale, threshold, asked, t.brain.decision);
      FollowSeesNothing(c', d', t);
    }
  }

  lemma FollowSeesNothing(c: Core, d: Decision, t: Tick)
    ensures AlikeSourced(Follow(c, d, t), Follow(c, d, TameTick(t)))
  {
  }

  lemma SourceSeesNothing(s: Setup, t: Tick, r: OpenRun)
    ensures AlikeSourced(OpenSource(s, t, r), OpenSource(s, TameTick(t), r))
  {
    AskSeesNothing(OPEN_STALL_RATIONALE, s.limits.stuckTurns, r.core, r.lastText, t);
  }

  lemma ExecuteSeesNothing(s: Setup, t: Tick, r: OpenRun, prompt: string)
    ensures OpenExecute(s, TameTick(t), r, prompt) == OpenExecute(s, t, r, prompt)
  {
  }

  lemma PassSeesNothing(s: Setup, t: Tick, r: OpenRun)
    ensures OpenPass(s, TameTick(t), r) == OpenPass(s, t, r)
  {
    SourceSeesNothing(s, t, r);
    var x := OpenSource(s, t, r);
    if x.Prompt? { ExecuteSeesNothing(s, t, r.(core := x.core), x.text); }
  }

  lemma {:induction false} LoopSeesNothing(s: Setup, ticks: seq<Tick>, r: OpenRun)
    ensures OpenLoop(s, TameTicks(ticks), r) == OpenLoop(s, ticks, r)
  {
    if ticks != [] {
      assert TameTicks(ticks)[1..] == TameTicks(ticks[1..]);
      PassSeesNothing(s, ticks[0], r);
      var f := OpenPass(s, ticks[0], r);
      if f.OpenLive? { LoopSeesNothing(s, ticks[1..], f.run); }
    }
  }

  /** In every environment the OpenCode engine does what the Claude engine does in the tamed one: it asks the brain the
      same questions, and emits the same events up to the rationales of options. So no failure is recovered from or told
      from another, and limits, context and transcript are never looked at. */
  lemma OpenCodeIsTheTamedEngine(e: Engine, s: Setup, w: World)
    requires Refusal(e) == None
    ensures var f, g := SessionRun(s, Tame(w)), OpenSessionRun(e, s, w);
            && !g.Refused?
            && (f.Live? <==> g.OpenLive?) && (f.Over? <==> g.OpenOver?)
            && f.run.core.asked == g.run.core.asked
            && BlankTrace(f.run.core.trace) == BlankTrace(g.run.core.trace)
  {
    LoopSeesNothing(s, w.ticks, OpenRun(FreshCore(s.goal), "", false));
    assert OpenSessionRun(e, s, Tame(w)) == OpenSessionRun(e, s, w);
    TameIsPlain(w);
    EnginesRunInLockStep(e, s, Tame(w));
  }

  /** The engine refuses to start, with one error and without doing anything, when its provider or model is not named,
      when the provider is not a local one and paid ones are not allowed, or when its server is not there. */
  lemma RefusesIff(e: Engine, s: Setup, w: World)
    ensures OpenSessionRun(e, s, w).Refused? <==>
            e.providerID == "" || e.modelID == "" || (!e.allowPaid && !RunsLocally(e.providerID)) || e.server.Some?
    ensures var f := OpenSessionRun(e, s, w);
            f.Refused? ==> |f.trace| == 1 && f.trace[0].Error?
                           && (e.providerID == "" || e.modelID == "" ==> f.trace[0].message == NOT_CONFIGURED)
                           && (e.providerID != "" && e.modelID != "" && (e.allowPaid || RunsLocally(e.providerID)) ==>
                                 f.trace[0].message == "opencode serve unavailable: " + e.server.value.message)
  {
    RefusalIff(e);
    RunIsNotRefused(s, w.ticks, OpenRun(FreshCore(s.goal), "", false));
  }

  lemma RefusalIff(e: Engine)
    ensures Refusal(e).Some? <==>
            e.providerID == "" || e.modelID == "" || (!e.allowPaid && !RunsLocally(e.providerID)) || e.server.Some?
    ensures e.providerID == "" || e.modelID == "" ==> Refusal(e) == Some(NOT_CONFIGURED)
    ensures e.providerID != "" && e.modelID != "" && (e.allowPaid || RunsLocally(e.providerID)) && e.server.Some? ==>
              Refusal(e) == Some("opencode serve unavailable: " + e.server.value.message)
  {
    LocalIff(e.providerID);
  }

  lemma {:induction false} RunIsNotRefused(s: Setup, ticks: seq<Tick>, r: OpenRun)
    ensures !OpenLoop(s, ticks, r).Refused?
  {
    if ticks != [] {
      var f := OpenPass(s, ticks[0], r);
      if f.OpenLive? { RunIsNotRefused(s, ticks[1..], f.run); }
    }
  }

  /** The names local providers go by, up to case and white space around. */
  predicate RunsLocally(providerID: string) {
    var name := Lower(Trim(providerID));
    || name == "lmstudio" || name == "lm-studio" || name == "ollama"
    || name == "llamacpp" || name == "llama.cpp" || name == "local"
  }

  lemma LocalIff(providerID: string)
    ensures IsLocalProvider(providerID) <==> RunsLocally(providerID)
  {
  }
}
