/** The two engine loops run in lock-step: the same answers give the same events. */
module LockStep {
  import opened Text
  import opened GuardPolicy
  import opened RunModel
  import opened Recovery
  import opened Orchestrator
  import opened OpenCodeLoop

  /** A driver failure that both engines end with: none to recover from, no rate limit, and no stop pending. */
  predicate Fatal(a: Attempt) {
    && a.turn.Fails? && (a.turn.failure.kind == Auth || a.turn.failure.kind == Cwd || a.turn.failure.kind == Other)
    && !a.stopAfterFailure
  }

  /** The answers for which the engines are meant to agree: the driver's failures are fatal ones, the usage and context
      guards are off, and no transcript exists before the first turn. */
  ghost predicate Plain(t: Tick) {
    && (t.turn.attempts(0).turn.Replies? || Fatal(t.turn.attempts(0)))
    && t.context == Roomy
    && t.usage == NotDue
    && t.transcriptText == ""
  }

  ghost predicate PlainWorld(w: World) {
    && (w.boot.Some? ==> w.boot.value.kind != RateLimit)
    && w.firstUsage == NotDue
    && forall t :: t in w.ticks ==> Plain(t)
  }

  // ---- traces up to the wording of option rationales --------------------------

  function BlankOptions(options: seq<AttentionOption>): seq<AttentionOption> {
    seq(|options|, i requires 0 <= i < |options| => options[i].(rationale := ""))
  }

  function BlankRequest(q: Request): Request {
    q.(options := BlankOptions(q.options))
  }

  /** The event without the rationales shown beside its options. */
  function Blank(e: Event): Event {
    match e
    case Decided(n, Escalate(reason, question, options)) =>
      Decided(n, Escalate(reason, question, BlankOptions(options)))
    case Attention(n, q) => Attention(n, BlankRequest(q))
    case AttentionResolved(q, resolution) => AttentionResolved(BlankRequest(q), resolution)
    case _ => e
  }

  function BlankTrace(trace: seq<Event>): seq<Event> {
    seq(|trace|, i requires 0 <= i < |trace| => Blank(trace[i]))
  }

  /** Two runs whose traces agree up to rationales, and entirely until a stall was escalated. */
  ghost predicate SameCore(a: Core, b: Core) {
    && a == b.(trace := a.trace)
    && BlankTrace(a.trace) == BlankTrace(b.trace)
    && (a.trace == b.trace <==> a.stalls == 0)
  }

  /** Sourcing ended the same way in both. */
  ghost predicate SameSourced(a: Sourced, b: Sourced) {
    && SameCore(a.core, b.core)
    && (a.Prompt? <==> b.Prompt?) && (a.Reloop? <==> b.Reloop?) && (a.Closed? <==> b.Closed?)
      && (a.Waiting? <==> b.Waiting?)
    && (a.Prompt? ==> a.text == b.text)
    && (a.Failed? ==> a.failure == b.failure)
  }

  lemma SameEmit(a: Core, b: Core, x: seq<Event>, y: seq<Event>)
    requires SameCore(a, b)
    requires |x| == |y| && BlankTrace(x) == BlankTrace(y)
    requires a.stalls == 0 ==> x == y
    ensures SameCore(Emit(a, x), Emit(b, y))
  {
    assert |a.trace| == |BlankTrace(a.trace)| == |b.trace|;
    assert BlankTrace(a.trace + x) == BlankTrace(a.trace) + BlankTrace(x);
    assert BlankTrace(b.trace + y) == BlankTrace(b.trace) + BlankTrace(y);
    assert (a.trace + x)[..|a.trace|] == a.trace;
    assert (b.trace + y)[..|a.trace|] == b.trace;
  }

  lemma SameWait(a: Core, b: Core, polls: seq<Poll>)
    requires SameCore(a, b)
    ensures SameSourced(WaitForBrain(a, polls), WaitForBrain(b, polls))
  {
    SameEmit(a, b, [Brain(false)], [Brain(false)]);
    var da, db := Emit(a, [Brain(false)]), Emit(b, [Brain(false)]);
    SameEmit(da, db, [Brain(true)], [Brain(true)]);
    SameEmit(da, db, [Stop(ModelUnreachable, a.guards.turns)], [Stop(ModelUnreachable, a.guards.turns)]);
  }

  ghost predicate SameDecision(d: Decision, e: Decision) {
    d == e || (d.Escalate? && e.Escalate? && d.reason == e.reason && d.question == e.question
               && BlankOptions(d.options) == BlankOptions(e.options))
  }

  lemma SameResolve(a: Core, b: Core, n: nat, d: Decision, e: Decision, t: Tick)
    requires SameCore(a, b) && d.Escalate? && e.Escalate? && SameDecision(d, e)
    requires a.stalls == 0 ==> d == e
    ensures SameSourced(Resolve(a, n, d, t), Resolve(b, n, e, t))
  {
    var question := if d.question.Some? then d.question.value else d.reason;
    var p, q := Request(t.requestId, n, question, d.options), Request(t.requestId, n, question, e.options);
    SameEmit(a, b, [Attention(n, p)], [Attention(n, q)]);
    var ga, gb := Emit(a, [Attention(n, p)]), Emit(b, [Attention(n, q)]);
    if t.resolution.Ok? {
      var x, y := AttentionResolved(p, t.resolution.value), AttentionResolved(q, t.resolution.value);
      SameEmit(ga, gb, [x], [y]);
      var stop := [Stop(HumanSaidStop, a.guards.turns)];
      SameEmit(Emit(ga, [x]), Emit(gb, [y]), stop, stop);
    }
  }

  lemma SameFollow(a: Core, b: Core, d: Decision, e: Decision, t: Tick)
    requires SameCore(a, b) && SameDecision(d, e)
    requires a.stalls == 0 ==> d == e
    ensures SameSourced(Follow(a, d, t), Follow(b, e, t))
  {
    var n := a.guards.turns;
    SameEmit(a, b, [Decided(n, d)], [Decided(n, e)]);
    var da, db := Emit(a, [Decided(n, d)]), Emit(b, [Decided(n, e)]);
    if d.Escalate? {
      SameResolve(da, db, n, d, e, t);
    } else if d.Finish? {
      var stop := [Stop(Said(d.reason), n)];
      SameEmit(da, db, stop, stop);
    }
  }

  /** A stall is escalated with the same text in both engines except for one rationale. */
  lemma SameStall(prompt: string, streak: nat)
    ensures var d := StallEscalation(STALL_RATIONALE, prompt, streak);
            var e := StallEscalation(OPEN_STALL_RATIONALE, prompt, streak);
            SameDecision(d, e) && d.options[0] != e.options[0]
  {
    var d, e := StallEscalation(STALL_RATIONALE, prompt, streak), StallEscalation(OPEN_STALL_RATIONALE, prompt, streak);
    assert BlankOptions(d.options) == BlankOptions(e.options);
    assert |STALL_RATIONALE| != |OPEN_STALL_RATIONALE|;
  }

  /** Appending a stall escalation separates the raw traces for good. */
  lemma StallSeparates(a: Core, b: Core, d: Decision, e: Decision, t: Tick)
    requires a == b.(trace := a.trace) && BlankTrace(a.trace) == BlankTrace(b.trace) && a.stalls > 0
    requires d.Escalate? && e.Escalate? && SameDecision(d, e) && d != e
    ensures SameSourced(Follow(a, d, t), Follow(b, e, t))
  {
    var n := a.guards.turns;
    var da, db := Emit(a, [Decided(n, d)]), Emit(b, [Decided(n, e)]);
    assert |a.trace| == |BlankTrace(a.trace)| == |b.trace|;
    assert da.trace[|a.trace|] == Decided(n, d) && db.trace[|a.trace|] == Decided(n, e);
    assert BlankTrace(da.trace) == BlankTrace(a.trace) + [Blank(Decided(n, d))];
    assert BlankTrace(db.trace) == BlankTrace(b.trace) + [Blank(Decided(n, e))];
    SameResolve(da, db, n, d, e, t);
  }

  lemma SameAsk(a: Core, b: Core, threshold: int, lastText: string, t: Tick)
    requires SameCore(a, b)
    ensures SameSourced(AskBrain(STALL_RATIONALE, threshold, a, lastText, t),
                        AskBrain(OPEN_STALL_RATIONALE, threshold, b, lastText, t))
  {
    var query := Query(lastText, a.guards.turns);
    var qa, qb := a.(asked := a.asked + [query]), b.(asked := b.asked + [query]);
    match t.brain {
      case Unreachable => SameWait(qa, qb, t.polls);
      case BrainThrows(_) =>
      case Decides(d) =>
        if d.Continue? && IsStuck(a.stuck, threshold) {
          var ra := qa.(stuck := StuckReset(a.stuck), stalls := a.stalls + 1);
          var rb := qb.(stuck := StuckReset(b.stuck), stalls := b.stalls + 1);
          SameStall(d.prompt, a.stuck.noChange);
          StallSeparates(ra, rb, StallEscalation(STALL_RATIONALE, d.prompt, a.stuck.noChange),
                         StallEscalation(OPEN_STALL_RATIONALE, d.prompt, a.stuck.noChange), t);
        } else {
          SameFollow(qa, qb, d, d, t);
        }
    }
  }

  // ---- one pass, then all of them --------------------------------------------

  /** The simulation relation. */
  ghost predicate Abreast(r: Run, o: OpenRun) {
    && SameCore(r.core, o.core)
    && (o.started <==> r.lastText.Some?)
    && (r.lastText.Some? ==> o.lastText == r.lastText.value)
    && (r.lastText == None ==> o.lastText == "")
  }

  ghost predicate AbreastFlow(f: Flow, g: OpenFlow) {
    && !g.Refused?
    && SameCore(f.run.core, g.run.core)
    && (f.Live? <==> g.OpenLive?) && (f.Over? <==> g.OpenOver?)
    && (f.Live? ==> Abreast(f.run, g.run))
  }

  /** Neither loop can see a rate-limit failure: only the driver raises those. */
  ghost predicate LocalFailures(t: Tick) {
    && (t.input.Throws? ==> t.input.failure.kind != RateLimit)
    && (t.brain.BrainThrows? ==> t.brain.failure.kind != RateLimit)
    && (t.resolution.Throws? ==> t.resolution.failure.kind != RateLimit)
  }

  lemma SameSources(s: Setup, t: Tick, r: Run, o: OpenRun)
    requires Abreast(r, o) && Plain(t)
    ensures SameSourced(Source(s, t, r), OpenSource(s, t, o))
    ensures Source(s, t, r).Failed? ==> Source(s, t, r).failure in FailuresOf(t)
  {
    var a, b := r.core, o.core;
    if (a.seeded || s.seedPrompt == "") && t.mode == Manual {
      if t.input.Ok? && t.input.value.StopRequest? {
        var stop := [Stop(ByOperator("stopped by operator"), a.guards.turns)];
        SameEmit(a, b, stop, stop);
      }
    } else {
      SameAsk(a, b, s.limits.stuckTurns, if r.lastText.Some? then r.lastText.value else "", t);
      AskFailures(a, s.limits.stuckTurns, if r.lastText.Some? then r.lastText.value else "", t);
    }
  }

  lemma AskFailures(c: Core, threshold: int, lastText: string, t: Tick)
    ensures var r := AskBrain(STALL_RATIONALE, threshold, c, lastText, t); r.Failed? ==> r.failure in FailuresOf(t)
  {
  }

  ghost function FailuresOf(t: Tick): set<Failure> {
    (if t.input.Throws? then {t.input.failure} else {})
    + (if t.brain.BrainThrows? then {t.brain.failure} else {})
    + (if t.resolution.Throws? then {t.resolution.failure} else {})
  }

  lemma SameExecute(s: Setup, t: Tick, r: Run, o: OpenRun, prompt: string)
    requires Abreast(r, o) && Plain(t)
    ensures var f := Execute(s, t, r, prompt);
            AbreastFlow(if f.Live? then Settle(s, t, f.run) else f, OpenExecute(s, t, o, prompt))
  {
    var (g, stop) := GuardCheck(s.limits, r.core.guards, prompt, t.elapsedMs);
    var a, b := r.core.(guards := g), o.core.(guards := g);
    if stop.Some? {
      SameEmit(a, b, [Stop(stop.value, g.turns)], [Stop(stop.value, g.turns)]);
    } else {
      var answer := t.turn.attempts(0).turn;
      HealsAtOnce(g.turns, prompt, t.turn);
      SameEmit(a, b, GateEvents(answer.gates), GateEvents(answer.gates));
      var x, y := Emit(a, GateEvents(answer.gates)), Emit(b, GateEvents(answer.gates));
      if answer.Replies? {
        var turn := [Turn(g.turns, prompt, answer.text)];
        SameEmit(x, y, turn, turn);
      } else {
        SameEmit(x, y, [Error(answer.failure.message)], [Error(answer.failure.message)]);
      }
    }
  }

  /** One driver call settles it. */
  lemma HealsAtOnce(n: nat, prompt: string, script: TurnScript)
    requires script.attempts(0).turn.Replies? || Fatal(script.attempts(0))
    ensures var answer := script.attempts(0).turn;
            Heal(n, prompt, script)
            == Healed(GateEvents(answer.gates), [Send(0, prompt)],
                      if answer.Replies? then Done(prompt, answer.text) else Gave(answer.failure))
  {
  }

  lemma SamePass(s: Setup, t: Tick, r: Run, o: OpenRun)
    requires Abreast(r, o) && Plain(t) && LocalFailures(t)
    ensures AbreastFlow(Pass(s, t, r), OpenPass(s, t, o))
  {
    if t.stop.Some? {
      var stop := [Stop(ByOperator(t.stop.value), r.core.guards.turns)];
      SameEmit(r.core, o.core, stop, stop);
    } else {
      SameSources(s, t, r, o);
      var x, y := Source(s, t, r), OpenSource(s, t, o);
      match x {
        case Prompt(_, prompt) => SameExecute(s, t, r.(core := x.core), o.(core := y.core), prompt);
        case Failed(_, f) => SameEmit(x.core, y.core, [Error(f.message)], [Error(f.message)]);
        case _ =>
      }
    }
  }

  lemma {:induction false} SameLoop(s: Setup, ticks: seq<Tick>, r: Run, o: OpenRun)
    requires Abreast(r, o) && forall t :: t in ticks ==> Plain(t) && LocalFailures(t)
    ensures AbreastFlow(Loop(s, ticks, r), OpenLoop(s, ticks, o))
  {
    if ticks != [] {
      SamePass(s, ticks[0], r, o);
      var f, g := Pass(s, ticks[0], r), OpenPass(s, ticks[0], o);
      if f.Live? {
        SameLoop(s, ticks[1..], f.run, g.run);
      }
    }
  }

  /** Lock-step: fed the same answers, the engines ask the brain the same questions and emit the same
      events up to option rationales. The raw traces are equal exactly when no stall was escalated,
      because the two sources word one rationale of that escalation differently. */
  lemma EnginesRunInLockStep(e: Engine, s: Setup, w: World)
    requires Refusal(e) == None && PlainWorld(w) && forall t :: t in w.ticks ==> LocalFailures(t)
    ensures var f, g := SessionRun(s, w), OpenSessionRun(e, s, w);
            && !g.Refused?
            && (f.Live? <==> g.OpenLive?) && (f.Over? <==> g.OpenOver?)
            && f.run.core.asked == g.run.core.asked
            && BlankTrace(f.run.core.trace) == BlankTrace(g.run.core.trace)
            && (f.run.core.trace == g.run.core.trace <==> f.run.core.stalls == 0)
  {
    if w.boot.Some? {
      var c := FreshCore(s.goal);
      SameEmit(c, c, [Error(w.boot.value.message)], [Error(w.boot.value.message)]);
    } else {
      SameLoop(s, w.ticks, Run(FreshCore(s.goal), [], None), OpenRun(FreshCore(s.goal), "", false));
    }
  }
}
