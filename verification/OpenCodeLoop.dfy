/** The second engine loop: `runOpenCodeSession` of `src/opencodeOrchestrator.ts`. */
module OpenCodeLoop {
  import opened Text
  import opened GuardPolicy
  import opened RunModel
  import opened LoopState
  import opened Recovery

  const OPEN_STALL_RATIONALE := "let it proceed"

  /** What the provider check and the server boot before the loop look at; an absent id is empty. */
  datatype Engine = Engine(providerID: string, modelID: string, allowPaid: bool, server: Option<Failure>)

  datatype OpenRun = OpenRun(core: Core, lastText: string, started: bool)

  datatype OpenFlow = OpenLive(run: OpenRun) | OpenOver(run: OpenRun) | OpenHung(run: OpenRun)
      | Refused(trace: seq<Event>)

  const NOT_CONFIGURED := "opencode engine requires session.opencode.providerID and modelID"

  predicate IsLocalProvider(providerID: string) {
    Lower(Trim(providerID)) in {"lmstudio", "lm-studio", "ollama", "llamacpp", "llama.cpp", "local"}
  }

  function PaidProvider(providerID: string): string {
    "refusing to drive OpenCode unattended on non-local provider \"" + providerID + "\" — it may incur cost. "
    + "Use a local provider (lmstudio/ollama) or set session.opencode.allowPaidProvider: true to acknowledge."
  }

  /** Why the engine does not even start, if it does not. */
  function Refusal(e: Engine): Option<string> {
    if e.providerID == "" || e.modelID == "" then Some(NOT_CONFIGURED)
    else if !IsLocalProvider(e.providerID) && !e.allowPaid then Some(PaidProvider(e.providerID))
    else if e.server.Some? then Some("opencode serve unavailable: " + e.server.value.message)
    else None
  }

  /** Every failure ends this loop the same way. */
  function OpenRaise(c: Core, f: Failure): Core {
    Emit(c, [Error(f.message)])
  }

  function OpenSource(s: Setup, t: Tick, r: OpenRun): Sourced {
    var c := r.core;
    if !c.seeded && s.seedPrompt != "" then Prompt(c.(seeded := true), s.seedPrompt)
    else if t.mode == Manual then
      match t.input
      case Throws(f) => Failed(c, f)
      case Ok(StopRequest) => Closed(StopRun(c, ByOperator("stopped by operator")))
      case Ok(SwitchMode) => Reloop(c)
      case Ok(Message(text)) => Prompt(c, text)
    else if !r.started && s.goal != "" then Prompt(c, s.goal)
    else AskBrain(OPEN_STALL_RATIONALE, s.limits.stuckTurns, c, r.lastText, t)
  }

  /** Guard and run one prompt; the driver's first answer is the only one, there is no recovery. */
  function OpenExecute(s: Setup, t: Tick, r: OpenRun, prompt: string): OpenFlow {
    var (g, stop) := GuardCheck(s.limits, r.core.guards, prompt, t.elapsedMs);
    var checked := r.core.(guards := g);
    if stop.Some? then OpenOver(r.(core := StopRun(checked, stop.value)))
    else
      var answer := t.turn.attempts(0).turn;
      var after := Emit(checked, GateEvents(answer.gates));
      if answer.Fails? then OpenOver(r.(core := OpenRaise(after, answer.failure)))
      else
        var c := Emit(after, [Turn(g.turns, prompt, answer.text)]);
        OpenLive(OpenRun(c.(stuck := StuckRecord(c.stuck, t.fingerprint)), answer.text, true))
  }

  function OpenPass(s: Setup, t: Tick, r: OpenRun): OpenFlow {
    if t.stop.Some? then OpenOver(r.(core := StopRun(r.core, ByOperator(t.stop.value))))
    else
      match OpenSource(s, t, r)
      case Reloop(c) => OpenLive(r.(core := c))
      case Closed(c) => OpenOver(r.(core := c))
      case Waiting(c) => OpenHung(r.(core := c))
      case Failed(c, f) => OpenOver(r.(core := OpenRaise(c, f)))
      case Prompt(c, prompt) => OpenExecute(s, t, r.(core := c), prompt)
  }

  function OpenLoop(s: Setup, ticks: seq<Tick>, r: OpenRun): OpenFlow {
    if ticks == [] then OpenLive(r)
    else
      var f := OpenPass(s, ticks[0], r);
      if f.OpenLive? then OpenLoop(s, ticks[1..], f.run) else f
  }

  function OpenSessionRun(e: Engine, s: Setup, w: World): OpenFlow {
    if Refusal(e).Some? then Refused([Error(Refusal(e).value)])
    else
      var start := OpenRun(FreshCore(s.goal), "", false);
      if w.boot.Some? then OpenOver(start.(core := OpenRaise(start.core, w.boot.value)))
      else OpenLoop(s, w.ticks, start)
  }

  // ---- the loop itself -------------------------------------------------------

  /** The run loop over a script of answers. */
  method RunOpenCodeSession(e: Engine, s: Setup, w: World) returns (flow: OpenFlow)
    ensures flow == OpenSessionRun(e, s, w)
  {
    if e.providerID == "" || e.modelID == "" {
      return Refused([Error(NOT_CONFIGURED)]);
    }
    if !IsLocalProvider(e.providerID) && !e.allowPaid {
      return Refused([Error(PaidProvider(e.providerID))]);
    }
    if e.server.Some? {
      return Refused([Error("opencode serve unavailable: " + e.server.value.message)]);
    }
    if w.boot.Some? {
      flow := FailToBoot(s, w.boot.value);
    } else {
      flow := DriveOpenCode(s, w.ticks);
    }
  }

  method FailToBoot(s: Setup, f: Failure) returns (flow: OpenFlow)
    ensures flow == OpenOver(OpenRun(OpenRaise(FreshCore(s.goal), f), "", false))
  {
    var state := new LoopState(s.goal, s.limits);
    state.Emits([Error(f.message)]);
    flow := OpenOver(OpenRun(state.View(), "", false));
  }

  method DriveOpenCode(s: Setup, ticks: seq<Tick>) returns (flow: OpenFlow)
    ensures flow == OpenLoop(s, ticks, OpenRun(FreshCore(s.goal), "", false))
  {
    var state := new LoopState(s.goal, s.limits);
    var lastText, started := "", false;
    var i := 0;
    while i < |ticks|
      invariant 0 <= i <= |ticks|
      invariant fresh(state) && fresh(state.guards) && fresh(state.stuck)
      invariant OpenLoop(s, ticks, OpenRun(FreshCore(s.goal), "", false))
                == OpenLoop(s, ticks[i..], OpenRun(state.View(), lastText, started))
    {
      var t := ticks[i];
      assert ticks[i..][0] == t && ticks[i..][1..] == ticks[i + 1..];
      i := i + 1;
      if t.stop.Some? {
        state.Stops(ByOperator(t.stop.value));
        return OpenOver(OpenRun(state.View(), lastText, started));
      }
      var next := OpenSources(s, t, state, lastText, started);
      match next {
        case Reloop(_) => continue;
        case Closed(_) => return OpenOver(OpenRun(state.View(), lastText, started));
        case Waiting(_) => return OpenHung(OpenRun(state.View(), lastText, started));
        case Failed(_, f) =>
          state.Emits([Error(f.message)]);
          return OpenOver(OpenRun(state.View(), lastText, started));
        case Prompt(_, pending) =>
          var reply := OpenExecutes(s, t, state, pending);
          if reply == None {
            return OpenOver(OpenRun(state.View(), lastText, started));
          }
          lastText, started := reply.value, true;
      }
    }
    return OpenLive(OpenRun(state.View(), lastText, started));
  }

  /** Guard and run one prompt; no reply means the run ended. */
  method OpenExecutes(s: Setup, t: Tick, state: LoopState, pending: string) returns (reply: Option<string>)
    requires state.guards.limits == s.limits
    modifies state`trace, state.guards, state.stuck
    ensures forall lastText, started ::
              OpenExecute(s, t, OpenRun(old(state.View()), lastText, started), pending)
              == if reply.Some? then OpenLive(OpenRun(state.View(), reply.value, true))
                else OpenOver(OpenRun(state.View(), lastText, started))
  {
    var stop := state.guards.Check(pending, t.elapsedMs);
    if stop.Some? {
      state.Stops(stop.value);
      return None;
    }
    var answer := t.turn.attempts(0).turn;
    state.Emits(GateEvents(answer.gates));
    if answer.Fails? {
      state.Emits([Error(answer.failure.message)]);
      return None;
    }
    state.Emits([Turn(state.guards.turns, pending, answer.text)]);
    state.stuck.Record(t.fingerprint);
    return Some(answer.text);
  }

  method OpenSources(s: Setup, t: Tick, state: LoopState, lastText: string, started: bool) returns (r: Sourced)
    requires state.limits == s.limits
    modifies state, state.stuck
    ensures r == OpenSource(s, t, OpenRun(old(state.View()), lastText, started)) && state.View() == r.core
  {
    if !state.seeded && s.seedPrompt != "" {
      state.seeded := true;
      return Prompt(state.View(), s.seedPrompt);
    }
    if t.mode == Manual {
      match t.input {
        case Throws(f) => return Failed(state.View(), f);
        case Ok(SwitchMode) => return Reloop(state.View());
        case Ok(Message(text)) => return Prompt(state.View(), text);
        case Ok(StopRequest) =>
          state.Stops(ByOperator("stopped by operator"));
          return Closed(state.View());
      }
    }
    if !started && s.goal != "" {
      return Prompt(state.View(), s.goal);
    }
    r := state.AsksBrain(OPEN_STALL_RATIONALE, lastText, t);
  }
}
