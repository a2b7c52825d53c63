/** The Claude engine loop: `runSession` of `src/orchestrator.ts`. */
module Orchestrator {
  import opened Text
  import opened GuardPolicy
  import opened RunModel
  import opened LoopState
  import opened Recovery

  const STALL_RATIONALE := "let it proceed with the next step"

  /** A prompt as it was sourced, and as the finished turn reported it. */
  datatype Ran = Ran(sourced: string, reported: string)

  /** The loop's state: what both engines keep, the prompts run so far, the last reply, and all that was done to the
      driver. */
  datatype Run = Run(core: Core, ran: seq<Ran>, lastText: Option<string>, driven: seq<Act> := [])

  datatype Flow = Live(run: Run) | Over(run: Run) | Hung(run: Run)

  /** The terminal events of the outer error handler. */
  function Raise(c: Core, f: Failure): Core {
    if f.kind == RateLimit then Emit(c, [RateLimited(f.message), Stop(Said(f.message), c.guards.turns)])
    else Emit(c, [Error(f.message)])
  }

  function OperatorStop(c: Core): Core {
    StopRun(c, ByOperator("stopped by operator"))
  }

  /** Source the next prompt, by mode. */
  function Source(s: Setup, t: Tick, r: Run): Sourced {
    var c := r.core;
    if !c.seeded && s.seedPrompt != "" then Prompt(c.(seeded := true), s.seedPrompt)
    else if t.mode == Manual then
      match t.input
      case Throws(f) => Failed(c, f)
      case Ok(StopRequest) => Closed(OperatorStop(c))
      case Ok(SwitchMode) => Reloop(c)
      case Ok(Message(text)) => Prompt(c, text)
    else
      var lastText := if r.lastText.Some? then r.lastText.value else t.transcriptText;
      if r.lastText == None && lastText == "" && s.goal != "" then Prompt(c, s.goal)
      else AskBrain(STALL_RATIONALE, s.limits.stuckTurns, c, lastText, t)
  }

  /** A driver run that ended the session: an operator stop mid-turn, or a failure the ladder gave up on. */
  function BreakOff(r: Run, o: Outcome): Flow
    requires !o.Done?
  {
    Over(r.(core := if o.StoppedMidTurn? then OperatorStop(r.core) else Raise(r.core, o.failure)))
  }

  /** Read the subscription limits; a spent one ends the run. */
  function CheckUsage(r: Run, u: UsageAnswer): Flow {
    match u
    case NotDue => Live(r)
    case NoPanel => Live(r)
    case Within => Live(r.(core := Emit(r.core, [UsageRead])))
    case Spent(reason) =>
      Over(r.(core := StopRun(Emit(r.core, [UsageRead, LimitSpent(reason)]), Said(reason))))
    case UsageThrows(f) => Over(r.(core := Raise(r.core, f)))
  }

  /** One maintenance turn of the compaction flow: it emits no turn event and counts no turn. */
  function Maintain(r: Run, prompt: string, script: TurnScript): Flow {
    var h := Heal(r.core.guards.turns, prompt, script);
    var after := r.(core := Emit(r.core, h.events), driven := r.driven + h.acts);
    if h.outcome.Done? then Live(after) else BreakOff(after, h.outcome)
  }

  /** The resume turn of a compaction; its reply becomes the last reply. */
  function Resume(s: Setup, r: Run, resume: TurnScript): Flow {
    var h := Heal(r.core.guards.turns, s.resumePrompt, resume);
    var resumed := Maintain(r, s.resumePrompt, resume);
    if !h.outcome.Done? then resumed
    else Live(resumed.run.(core := Emit(resumed.run.core, [Compaction(true)]), lastText := Some(h.outcome.text)))
  }

  function CompactThenResume(s: Setup, r: Run, compact: TurnScript, resume: TurnScript): Flow {
    var compacted := Maintain(r, "/compact", compact);
    if !compacted.Live? then compacted else Resume(s, compacted.run, resume)
  }

  /** Save a handoff, compact, resume. */
  function CompactContext(s: Setup, r: Run, context: ContextAnswer): Flow {
    match context
    case Roomy => Live(r)
    case ContextThrows(f) => Over(r.(core := Raise(r.core, f)))
    case Compact(save, compact, resume) =>
      var saved := Maintain(r.(core := Emit(r.core, [Compaction(false)])), s.savePrompt, save);
      if !saved.Live? then saved else CompactThenResume(s, saved.run, compact, resume)
  }

  /** The turn event and the bookkeeping after a finished turn. */
  function FinishTurn(r: Run, prompt: string, reported: string, text: string, fingerprint: string): Run {
    var c := Emit(r.core, [Turn(r.core.guards.turns, reported, text)]);
    r.(core := c.(stuck := StuckRecord(c.stuck, fingerprint)), ran := r.ran + [Ran(prompt, reported)],
       lastText := Some(text))
  }

  /** Guard, run and record one sourced prompt. */
  function Execute(s: Setup, t: Tick, r: Run, prompt: string): Flow {
    var (g, stop) := GuardCheck(s.limits, r.core.guards, prompt, t.elapsedMs);
    var checked := r.(core := r.core.(guards := g));
    if stop.Some? then Over(checked.(core := StopRun(checked.core, stop.value)))
    else
      var h := Heal(g.turns, prompt, t.turn);
      var after := checked.(core := Emit(checked.core, h.events), driven := r.driven + h.acts);
      if !h.outcome.Done? then BreakOff(after, h.outcome)
      else Live(FinishTurn(after, prompt, h.outcome.prompt, h.outcome.text, t.fingerprint))
  }

  /** The two guards that run after a turn. */
  function Settle(s: Setup, t: Tick, r: Run): Flow {
    var f := CompactContext(s, r, t.context);
    if f.Live? then CheckUsage(f.run, t.usage) else f
  }

  /** One pass through the loop. */
  function Pass(s: Setup, t: Tick, r: Run): Flow {
    if t.stop.Some? then Over(r.(core := StopRun(r.core, ByOperator(t.stop.value))))
    else
      match Source(s, t, r)
      case Reloop(c) => Live(r.(core := c))
      case Closed(c) => Over(r.(core := c))
      case Waiting(c) => Hung(r.(core := c))
      case Failed(c, f) => Over(r.(core := Raise(c, f)))
      case Prompt(c, prompt) =>
        var f := Execute(s, t, r.(core := c), prompt);
        if f.Live? then Settle(s, t, f.run) else f
  }

  function Loop(s: Setup, ticks: seq<Tick>, r: Run): Flow {
    if ticks == [] then Live(r)
    else
      var f := Pass(s, ticks[0], r);
      if f.Live? then Loop(s, ticks[1..], f.run) else f
  }

  /** A whole run: `Over` when it ended, `Live` or `Hung` when the script ends first. */
  function SessionRun(s: Setup, w: World): Flow {
    var start := Run(FreshCore(s.goal), [], None);
    if w.boot.Some? then Over(start.(core := Raise(start.core, w.boot.value)))
    else
      var f := CheckUsage(start, w.firstUsage);
      if f.Live? then Loop(s, w.ticks, f.run) else f
  }

  // ---- the loop itself -------------------------------------------------------

  /** `runSession`'s variables; its closures are the methods. */
  class Session {
    const setup: Setup
    const state: LoopState
    var ran: seq<Ran>
    var lastText: Option<string>
    var driven: seq<Act>

    constructor (setup: Setup)
      ensures this.setup == setup && state.limits == setup.limits && state.guards.limits == setup.limits
      ensures fresh(state) && fresh(state.guards) && fresh(state.stuck)
      ensures View() == Run(FreshCore(setup.goal), [], None)
    {
      this.setup := setup;
      state := new LoopState(setup.goal, setup.limits);
      ran, lastText, driven := [], None, [];
    }

    function View(): Run
      reads this, state, state.guards, state.stuck
    {
      Run(state.View(), ran, lastText, driven)
    }

    method Raises(f: Failure)
      modifies state`trace
      ensures View() == old(View()).(core := Raise(old(state.View()), f))
    {
      if f.kind == RateLimit {
        state.Emits([RateLimited(f.message)]);
        state.Stops(Said(f.message));
      } else {
        state.Emits([Error(f.message)]);
      }
    }

    method Sources(t: Tick) returns (r: Sourced)
      requires state.limits == setup.limits
      modifies state, state.stuck
      ensures r == Source(setup, t, old(View())) && View() == old(View()).(core := r.core)
    {
      if !state.seeded && setup.seedPrompt != "" {
        state.seeded := true;
        return Prompt(state.View(), setup.seedPrompt);
      }
      if t.mode == Manual {
        match t.input {
          case Throws(f) => return Failed(state.View(), f);
          case Ok(SwitchMode) => return Reloop(state.View());
          case Ok(Message(text)) => return Prompt(state.View(), text);
          case Ok(StopRequest) =>
            state.Stops(ByOperator("stopped by operator"));
            return Closed(state.View());
        }
      }
      var seen := if lastText.Some? then lastText.value else t.transcriptText;
      if lastText == None && seen == "" && setup.goal != "" {
        return Prompt(state.View(), setup.goal);
      }
      r := state.AsksBrain(STALL_RATIONALE, seen, t);
    }

    /** Run one maintenance turn: its reply, or nothing when it ended the session. */
    method Maintains(prompt: string, script: TurnScript) returns (reply: Option<string>)
      modifies this`driven, state`trace
      ensures var f := Maintain(old(View()), prompt, script); View() == f.run && reply.Some? == f.Live? && !f.Hung?
      ensures var o := Heal(old(state.guards.turns), prompt, script).outcome;
              reply == if o.Done? then Some(o.text) else None
    {
      var h := RunTurnRecovered(state.guards.turns, prompt, script);
      state.Emits(h.events);
      driven := driven + h.acts;
      var live := Finishes(h.outcome);
      reply := if live then Some(h.outcome.text) else None;
    }

    /** End the session unless the driver finished its turn. */
    method Finishes(o: Outcome) returns (live: bool)
      modifies state`trace
      ensures live == o.Done?
      ensures View() == if live then old(View()) else BreakOff(old(View()), o).run
    {
      match o {
        case StoppedMidTurn => state.Stops(ByOperator("stopped by operator"));
        case Gave(f) => Raises(f);
        case Done(_, _) =>
      }
      live := o.Done?;
    }

    method ChecksUsage(u: UsageAnswer) returns (live: bool)
      modifies state`trace
      ensures var f := CheckUsage(old(View()), u); View() == f.run && live == f.Live? && !f.Hung?
    {
      live := true;
      match u {
        case UsageThrows(f) =>
          Raises(f);
          live := false;
        case Within =>
          state.Emits([UsageRead]);
        case Spent(reason) =>
          state.Emits([UsageRead, LimitSpent(reason)]);
          state.Stops(Said(reason));
          live := false;
        case _ =>
      }
    }

    /** Save a handoff, compact, resume. */
    method Compacts(context: ContextAnswer) returns (live: bool)
      modifies this`lastText, this`driven, state`trace
      ensures var f := CompactContext(setup, old(View()), context); View() == f.run && live == f.Live? && !f.Hung?
    {
      live := true;
      match context {
        case Roomy =>
        case ContextThrows(f) =>
          Raises(f);
          live := false;
        case Compact(save, compact, resume) =>
          state.Emits([Compaction(false)]);
          var reply := Maintains(setup.savePrompt, save);
          if reply.Some? {
            reply := Maintains("/compact", compact);
          }
          if reply.Some? {
            reply := Maintains(setup.resumePrompt, resume);
            if reply.Some? {
              lastText := reply;
              state.Emits([Compaction(true)]);
            }
          }
          live := reply.Some?;
      }
    }

    /** Guard and run one sourced prompt. */
    method Executes(t: Tick, pending: string) returns (live: bool)
      requires state.guards.limits == setup.limits
      modifies this, state`trace, state.guards, state.stuck
      ensures var f := Execute(setup, t, old(View()), pending); View() == f.run && live == f.Live? && !f.Hung?
    {
      var stop := state.guards.Check(pending, t.elapsedMs);
      if stop.Some? {
        state.Stops(stop.value);
        return false;
      }
      var h := RunTurnRecovered(state.guards.turns, pending, t.turn);
      state.Emits(h.events);
      driven := driven + h.acts;
      live := Finishes(h.outcome);
      if live {
        state.Emits([Turn(state.guards.turns, h.outcome.prompt, h.outcome.text)]);
        state.stuck.Record(t.fingerprint);
        ran := ran + [Ran(pending, h.outcome.prompt)];
        lastText := Some(h.outcome.text);
      }
    }
  }

  /** The run loop over a script of answers. */
  method RunSession(setup: Setup, w: World) returns (flow: Flow)
    ensures flow == SessionRun(setup, w)
  {
    var sess := new Session(setup);
    if w.boot.Some? {
      sess.Raises(w.boot.value);
      return Over(sess.View());
    }
    var live := sess.ChecksUsage(w.firstUsage);
    if !live {
      return Over(sess.View());
    }
    var i := 0;
    while i < |w.ticks|
      invariant 0 <= i <= |w.ticks|
      invariant fresh(sess) && fresh(sess.state) && fresh(sess.state.guards) && fresh(sess.state.stuck)
      invariant SessionRun(setup, w) == Loop(setup, w.ticks[i..], sess.View())
    {
      var t := w.ticks[i];
      assert w.ticks[i..][0] == t && w.ticks[i..][1..] == w.ticks[i + 1..];
      i := i + 1;
      if t.stop.Some? {
        sess.state.Stops(ByOperator(t.stop.value));
        return Over(sess.View());
      }
      var next := sess.Sources(t);
      match next {
        case Reloop(_) => continue;
        case Closed(_) => return Over(sess.View());
        case Waiting(_) => return Hung(sess.View());
        case Failed(_, f) =>
          sess.Raises(f);
          return Over(sess.View());
        case Prompt(_, pending) =>
          live := sess.Executes(t, pending);
          if live {
            live := sess.Compacts(t.context);
          }
          if live {
            live := sess.ChecksUsage(t.usage);
          }
          if !live {
            return Over(sess.View());
          }
      }
    }
    return Live(sess.View());
  }
}
