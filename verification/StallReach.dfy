/** When the two engines' traces can differ at all: exactly when a stall escalation is within reach of the limits. */
module StallReach {
  import opened Text
  import opened GuardPolicy
  import opened RunModel
  import opened Recovery
  import opened Orchestrator
  import opened OpenCodeLoop
  import opened LockStep
  import opened TraceShape

  /** A run can take enough turns, with prompts that need not all be alike, for the stall detector to fire. */
  predicate StallsInReach(limits: Limits) {
    limits.stuckTurns >= 1 && limits.maxTurns > limits.stuckTurns && limits.pingPongThreshold >= 2
  }

  // ---- out of reach ----------------------------------------------------------

  /** No stall so far, and a streak shorter than the run. */
  ghost predicate Unstalled(r: Run) {
    && r.core.stalls == 0
    && (if r.ran == [] then r.core.stuck == FRESH_STUCK else r.core.stuck.noChange < |r.ran|)
  }

  lemma NotStuck(limits: Limits, r: Run)
    requires Facts(limits, r) && Unstalled(r) && !StallsInReach(limits)
    ensures !IsStuck(r.core.stuck, limits.stuckTurns)
  {
    if limits.pingPongThreshold == 1 && r.ran != [] { OnceIsOneRepeat(Sourceds(r.ran)); }
  }

  lemma SourceIsUnstalled(s: Setup, t: Tick, r: Run)
    requires !IsStuck(r.core.stuck, s.limits.stuckTurns)
    ensures var c := Orchestrator.Source(s, t, r).core; c.stuck == r.core.stuck && c.stalls == r.core.stalls
  {
  }

  lemma MaintainStays(r: Run, prompt: string, script: TurnScript)
    ensures var q := Maintain(r, prompt, script).run;
            q.ran == r.ran && q.core.stuck == r.core.stuck && q.core.stalls == r.core.stalls
  {
  }

  lemma SettleStays(s: Setup, t: Tick, r: Run)
    ensures var q := Settle(s, t, r).run;
            q.ran == r.ran && q.core.stuck == r.core.stuck && q.core.stalls == r.core.stalls
  {
    CompactStays(s, r, t.context);
  }

  lemma CompactStays(s: Setup, r: Run, context: ContextAnswer)
    ensures var q := CompactContext(s, r, context).run;
            q.ran == r.ran && q.core.stuck == r.core.stuck && q.core.stalls == r.core.stalls
  {
    match context {
      case Compact(save, compact, resume) =>
        var begun := r.(core := Emit(r.core, [Compaction(false)]));
        MaintainStays(begun, s.savePrompt, save);
        var saved := Maintain(begun, s.savePrompt, save);
        MaintainStays(saved.run, "/compact", compact);
        var compacted := Maintain(saved.run, "/compact", compact);
        MaintainStays(compacted.run, s.resumePrompt, resume);
      case _ =>
    }
  }

  lemma ExecuteIsUnstalled(s: Setup, t: Tick, r: Run, prompt: string)
    requires Unstalled(r)
    ensures var f := Execute(s, t, r, prompt); f.run.core.stalls == 0 && (f.Live? ==> Unstalled(f.run))
  {
  }

  lemma PassIsUnstalled(s: Setup, t: Tick, r: Run)
    requires Inv(s.limits, r) && Unstalled(r) && !StallsInReach(s.limits)
    ensures var f := Pass(s, t, r); f.run.core.stalls == 0 && (f.Live? ==> Unstalled(f.run))
  {
    InvHasFacts(s.limits, r);
    NotStuck(s.limits, r);
    SourceIsUnstalled(s, t, r);
    match Orchestrator.Source(s, t, r) {
      case Prompt(c, prompt) =>
        var sourced := r.(core := c);
        ExecuteIsUnstalled(s, t, sourced, prompt);
        var f := Execute(s, t, sourced, prompt);
        SettleStays(s, t, f.run);
      case _ =>
    }
  }

  lemma {:induction false} LoopIsUnstalled(s: Setup, ticks: seq<Tick>, r: Run)
    requires Inv(s.limits, r) && Unstalled(r) && !StallsInReach(s.limits)
    ensures Loop(s, ticks, r).run.core.stalls == 0
  {
    if ticks != [] {
      PassKeeps(s, ticks[0], r);
      PassIsUnstalled(s, ticks[0], r);
      var f := Pass(s, ticks[0], r);
      if f.Live? {
        LoopIsUnstalled(s, ticks[1..], f.run);
      }
    }
  }

  lemma NoStallOutOfReach(s: Setup, w: World)
    requires PlainWorld(w) && !StallsInReach(s.limits)
    ensures SessionRun(s, w).run.core.stalls == 0
  {
    var start := Run(FreshCore(s.goal), [], None);
    FreshInv(s);
    LoopIsUnstalled(s, w.ticks, start);
  }

  // ---- within reach ----------------------------------------------------------

  function AtOnce(k: nat): Attempt {
    Attempt(false, None, None, false, None, _ => GracePoll(0, 0, false, None, true, None), Replies([], "done"), false)
  }

  /** A turn the user asks for, at the last moment the wall clock allows, that leaves the files as they are. */
  function UserTurn(limits: Limits, message: string): Tick {
    Tick(None, RunModel.Manual, Ok(Message(message)), "", Unreachable, [], "", Ok(ChooseStop),
         limits.maxWallClockMin * 60_000, TurnScript(0, AtOnce), "same files", Roomy, NotDue)
  }

  /** The brain is asked, and says to go on. */
  function BrainTurn(limits: Limits): Tick {
    UserTurn(limits, "").(mode := RunModel.Autopilot, brain := Decides(Continue("a", "")))
  }

  lemma AAndBDiffer()
    ensures Norm("a") != Norm("b")
  {
    NormOfLetter("a");
    NormOfLetter("b");
  }

  lemma NormOfLetter(s: string)
    requires |s| == 1 && 'a' <= s[0] <= 'z'
    ensures Norm(s) == s
  {
    assert Lower(s) == s;
    var sep := c => !IsWordChar(c);
    assert Collapse(s[1..], sep) == "";
    assert Collapse(s, sep) == [s[0]] + "" == s;
    TrimmedIff(s);
  }

  /** A message that differs from the last prompt in the window. */
  function Other(recent: seq<string>): string {
    if recent != [] && recent[|recent| - 1] == Norm("a") then "b" else "a"
  }

  lemma GuardLetsPass(limits: Limits, g: GuardState, prompt: string)
    requires g.turns < limits.maxTurns && limits.pingPongThreshold >= 2
    requires g.recent == [] || Norm(prompt) != g.recent[|g.recent| - 1]
    ensures var (next, stop) := GuardCheck(limits, g, prompt, limits.maxWallClockMin * 60_000);
            stop == None && next.turns == g.turns + 1 && next.recent != []
  {
    var n := Norm(prompt);
    var window := Slide(g.recent, n, limits.pingPongThreshold);
    if g.recent != [] {
      var last := g.recent[|g.recent| - 1];
      assert |window| >= 2 && window[|window| - 2] == last;
      assert last in window;
    }
  }

  /** Ready for another turn: turns left, and the seed prompt out of the way or first. */
  ghost predicate Ready(s: Setup, r: Run) {
    && r.core.guards.turns < s.limits.maxTurns
    && (r.core.guards.recent == [] || r.core.seeded || s.seedPrompt == "")
  }

  lemma OneTurn(s: Setup, r: Run) returns (t: Tick, q: Run)
    requires Ready(s, r) && s.limits.pingPongThreshold >= 2
    ensures t == UserTurn(s.limits, Other(r.core.guards.recent)) && Pass(s, t, r) == Live(q)
    ensures q.core.guards.turns == r.core.guards.turns + 1 && (q.core.seeded || s.seedPrompt == "")
    ensures q.core.stuck == StuckRecord(r.core.stuck, "same files") && q.lastText.Some?
            && q.core.stalls == r.core.stalls
  {
    var g0 := r.core.guards;
    t := UserTurn(s.limits, Other(g0.recent));
    AAndBDiffer();
    var x := Orchestrator.Source(s, t, r);
    assert x.Prompt? && (x.core.seeded || s.seedPrompt == "");
    var prompt := x.text;
    GuardLetsPass(s.limits, g0, prompt);
    var (g, stop) := GuardCheck(s.limits, g0, prompt, t.elapsedMs);
    var after := r.(core := x.core.(guards := g));
    RunsAtOnce(g.turns, prompt);
    q := FinishTurn(after.(core := Emit(after.core, []), driven := r.driven + [Send(0, prompt)]), prompt, prompt,
                    "done", "same files");
  }

  lemma RunsAtOnce(n: nat, prompt: string)
    ensures Heal(n, prompt, TurnScript(0, AtOnce)) == Healed([], [Send(0, prompt)], Done(prompt, "done"))
  {
  }

  ghost predicate AllPlain(ticks: seq<Tick>) {
    forall t :: t in ticks ==> Plain(t) && LocalFailures(t)
  }

  /** `k` more turns without a change, then the brain is asked: that is a stall. */
  lemma {:induction false} TurnsThenStall(s: Setup, r: Run, k: nat) returns (ticks: seq<Tick>)
    requires StallsInReach(s.limits) && (r.core.seeded || s.seedPrompt == "") && r.lastText.Some?
    requires r.core.guards.turns + k <= s.limits.maxTurns
    requires r.core.stuck.lastFp == Some("same files") && r.core.stuck.noChange + k >= s.limits.stuckTurns
    ensures AllPlain(ticks) && Loop(s, ticks, r).run.core.stalls > 0
    decreases k
  {
    if k == 0 {
      BrainMeetsStall(s, r);
      ticks := [BrainTurn(s.limits)];
      LoopCons(s, BrainTurn(s.limits), [], r);
    } else {
      var t, q := OneTurn(s, r);
      var rest := TurnsThenStall(s, q, k - 1);
      ticks := [t] + rest;
      LoopCons(s, t, rest, r);
    }
  }

  lemma LoopCons(s: Setup, t: Tick, rest: seq<Tick>, r: Run)
    ensures Loop(s, [t] + rest, r)
            == (var f := Pass(s, t, r); if f.Live? then Loop(s, rest, f.run) else f)
    ensures Plain(t) && LocalFailures(t) && AllPlain(rest) ==> AllPlain([t] + rest)
  {
    assert ([t] + rest)[1..] == rest;
  }

  lemma BrainMeetsStall(s: Setup, r: Run)
    requires IsStuck(r.core.stuck, s.limits.stuckTurns) && (r.core.seeded || s.seedPrompt == "") && r.lastText.Some?
    ensures Pass(s, BrainTurn(s.limits), r).Over?
            && Pass(s, BrainTurn(s.limits), r).run.core.stalls == r.core.stalls + 1
  {
    var t := BrainTurn(s.limits);
    AskMeetsStall(r.core, s.limits.stuckTurns, r.lastText.value, t);
    assert Orchestrator.Source(s, t, r) == AskBrain(STALL_RATIONALE, s.limits.stuckTurns, r.core, r.lastText.value, t);
  }

  lemma AskMeetsStall(c: Core, threshold: int, lastText: string, t: Tick)
    requires IsStuck(c.stuck, threshold) && t.brain.Decides? && t.brain.decision.Continue?
             && t.resolution == Ok(ChooseStop)
    ensures var x := AskBrain(STALL_RATIONALE, threshold, c, lastText, t); x.Closed? && x.core.stalls == c.stalls + 1
  {
  }

  lemma StallWithinReach(s: Setup) returns (w: World)
    requires StallsInReach(s.limits)
    ensures PlainWorld(w) && (forall t :: t in w.ticks ==> LocalFailures(t)) && SessionRun(s, w).run.core.stalls > 0
  {
    var start := Run(FreshCore(s.goal), [], None);
    var t, q := OneTurn(s, start);
    var rest := TurnsThenStall(s, q, s.limits.stuckTurns);
    w := World(None, NotDue, [t] + rest);
    assert w.ticks[1..] == rest;
  }

  // ---- exactly when ----------------------------------------------------------

  ghost predicate SameTrace(e: Engine, s: Setup, w: World) {
    var f, g := SessionRun(s, w), OpenSessionRun(e, s, w);
    !g.Refused? && f.run.core.trace == g.run.core.trace
  }

  ghost predicate Comparable(w: World) {
    PlainWorld(w) && forall t :: t in w.ticks ==> LocalFailures(t)
  }

  /** The engines' traces are equal, event by event and word by word, in every comparable environment if and only if the
      stall detector is off, or its threshold is not below the turn limit, or the ping-pong guard lets no turn run. */
  lemma TracesAgreeIff(e: Engine, s: Setup)
    requires Refusal(e) == None
    ensures (forall w :: Comparable(w) ==> SameTrace(e, s, w)) <==>
            s.limits.stuckTurns <= 0 || s.limits.maxTurns <= s.limits.stuckTurns || s.limits.pingPongThreshold <= 1
  {
    if StallsInReach(s.limits) {
      var w := StallWithinReach(s);
      EnginesRunInLockStep(e, s, w);
      assert Comparable(w) && !SameTrace(e, s, w);
    } else {
      forall w | Comparable(w)
        ensures SameTrace(e, s, w)
      {
        NoStallOutOfReach(s, w);
        EnginesRunInLockStep(e, s, w);
      }
    }
  }
}
