/** What the two engine loops share: events, the answers their environment gives, the part of the
    run state both keep, and the two pieces of logic that are literally the same in both sources
    (waiting for the local model, and turning a brain decision into the next prompt). */
module RunModel {
  import opened Text
  import opened GuardPolicy

  // ---- failures and decisions ------------------------------------------------

  datatype FailureKind = Auth | RateLimit | Cwd | Timeout | ClaudeExited | NotRunning | Other

  datatype Failure = Failure(kind: FailureKind, message: string)

  datatype Answer<+T> = Ok(value: T) | Throws(failure: Failure)

  datatype AttentionOption = AttentionOption(name: string, rationale: string, prompt: string)

  datatype Decision =
    | Continue(prompt: string, reason: string)
    | Finish(reason: string)
    | Escalate(reason: string, question: Option<string>, options: seq<AttentionOption>)

  datatype Request = Request(id: string, turn: nat, question: string, options: seq<AttentionOption>)

  datatype Resolution = Choose(prompt: string, name: string) | ChooseStop

  datatype UserInput = Message(text: string) | SwitchMode | StopRequest

  datatype Mode = Manual | Autopilot

  // ---- the event stream ------------------------------------------------------

  datatype Event =
    | Start(goal: string)
    | Turn(n: nat, prompt: string, text: string)
    | Decided(n: nat, decision: Decision)
    | Attention(n: nat, request: Request)
    | AttentionResolved(request: Request, resolution: Resolution)
    | Gate(summary: string)
    | GateResolved(summary: string, approved: bool)
    | RateLimited(detail: string)
    | UsageRead
    | LimitSpent(reason: string)
    | Stop(why: Reason, turns: nat)
    | Compaction(resumed: bool)
    | Brain(recovered: bool)
    | Recovery(n: nat, attempt: nat, detail: string)
    | Error(message: string)

  // ---- the environment's answers ---------------------------------------------

  /** One driver call: the gates resolved while it ran, then a reply or a failure.
      The drivers hand back the prompt they were given, so a reply carries only the text. */
  datatype TurnAnswer =
    | Replies(gates: seq<(string, bool)>, text: string)
    | Fails(gates: seq<(string, bool)>, failure: Failure)

  /** One look at the transcript during the grace window: milliseconds beyond the five-second sleep,
      milliseconds spent reading, the operator's stop flag, and what the transcript shows. */
  datatype GracePoll = GracePoll(late: nat, reading: nat, stop: bool, size: Option<nat>, ended: bool,
                                 landed: Option<string>)

  /** Everything one recovery attempt can observe. */
  datatype Attempt = Attempt(
    stopAfterBackoff: bool,
    start: Option<Failure>,
    size: Option<nat>,
    ended: bool,
    landed: Option<string>,
    grace: nat -> GracePoll,
    turn: TurnAnswer,
    stopAfterFailure: bool)

  /** The transcript size before the turn and the answers for attempts 0, 1 and 2. */
  datatype TurnScript = TurnScript(offset: nat, attempts: nat -> Attempt)

  datatype BrainAnswer = Decides(decision: Decision) | Unreachable | BrainThrows(failure: Failure)

  datatype Poll = Poll(stopBefore: bool, stopAfter: bool, healthy: bool)

  datatype UsageAnswer = NotDue | NoPanel | Within | Spent(reason: string) | UsageThrows(failure: Failure)

  datatype ContextAnswer =
    | Roomy
    | Compact(save: TurnScript, compact: TurnScript, resume: TurnScript)
    | ContextThrows(failure: Failure)

  /** The answers available to one pass through the run loop. `stop` holds the text a stop signal reports. */
  datatype Tick = Tick(
    stop: Option<string>,
    mode: Mode,
    input: Answer<UserInput>,
    transcriptText: string,
    brain: BrainAnswer,
    polls: seq<Poll>,
    requestId: string,
    resolution: Answer<Resolution>,
    elapsedMs: int,
    turn: TurnScript,
    fingerprint: string,
    context: ContextAnswer,
    usage: UsageAnswer)

  /** A run's environment: boot failure, first usage read, and one tick per pass.
      Every finite run, and every finite prefix of an endless one, is a script. */
  datatype World = World(boot: Option<Failure>, firstUsage: UsageAnswer, ticks: seq<Tick>)

  datatype Setup = Setup(goal: string, seedPrompt: string, limits: Limits, savePrompt: string, resumePrompt: string)

  // ---- state both loops keep -------------------------------------------------

  /** What the brain is shown besides history: the last reply and the turn count. */
  datatype Query = Query(lastText: string, turnCount: nat)

  datatype Core = Core(
    trace: seq<Event>,
    guards: GuardState,
    stuck: StuckState,
    seeded: bool,
    asked: seq<Query>,
    stalls: nat)

  function FreshCore(goal: string): Core {
    Core([Start(goal)], NO_TURNS, FRESH_STUCK, false, [], 0)
  }

  function Emit(c: Core, events: seq<Event>): Core {
    c.(trace := c.trace + events)
  }

  function StopRun(c: Core, why: Reason): Core {
    Emit(c, [Stop(why, c.guards.turns)])
  }

  /** How sourcing the next prompt can end. */
  datatype Sourced =
    | Prompt(core: Core, text: string)
    | Reloop(core: Core)
    | Closed(core: Core)
    | Waiting(core: Core)
    | Failed(core: Core, failure: Failure)

  // ---- the local model is unreachable ----------------------------------------

  datatype PollOutcome = Recovered | StoppedWaiting | StillWaiting

  function PollBrain(polls: seq<Poll>): PollOutcome {
    if polls == [] then StillWaiting
    else if polls[0].stopBefore || polls[0].stopAfter then StoppedWaiting
    else if polls[0].healthy then Recovered
    else PollBrain(polls[1..])
  }

  function WaitForBrain(c: Core, polls: seq<Poll>): Sourced {
    var down := Emit(c, [Brain(false)]);
    match PollBrain(polls)
    case Recovered => Reloop(Emit(down, [Brain(true)]))
    case StoppedWaiting => Closed(StopRun(down, ModelUnreachable))
    case StillWaiting => Waiting(down)
  }

  // ---- a brain decision becomes the next prompt ------------------------------

  const TRY_DIFFERENTLY :=
    "You appear to be stuck repeating the same approach with no progress. Stop, re-read the goal, "
    + "state in one line what is actually blocking you, then try a fundamentally different approach."

  /** The escalation that replaces a `continue` once the files have stalled. */
  function StallEscalation(rationale: string, prompt: string, streak: nat): Decision {
    Escalate(
      "no file changes for " + Decimal(streak) + " turns — possible stall",
      Some("This session may be stuck — no files have changed in the last " + Decimal(streak)
           + " turns. Continue, redirect, or stop?"),
      [AttentionOption("Continue as planned", rationale, prompt),
       AttentionOption("Try a different approach", "break the loop", TRY_DIFFERENTLY)])
  }

  function Resolve(c: Core, n: nat, d: Decision, t: Tick): Sourced
    requires d.Escalate?
  {
    var request := Request(t.requestId, n, if d.question.Some? then d.question.value else d.reason, d.options);
    var asking := Emit(c, [Attention(n, request)]);
    match t.resolution
    case Throws(f) => Failed(asking, f)
    case Ok(resolution) =>
      var resolved := Emit(asking, [AttentionResolved(request, resolution)]);
      match resolution
      case ChooseStop => Closed(StopRun(resolved, HumanSaidStop))
      case Choose(prompt, _) => Prompt(resolved, prompt)
  }

  function Follow(c: Core, d: Decision, t: Tick): Sourced {
    var n := c.guards.turns;
    var decided := Emit(c, [Decided(n, d)]);
    match d
    case Finish(reason) => Closed(StopRun(decided, Said(reason)))
    case Continue(prompt, _) => Prompt(decided, prompt)
    case Escalate(_, _, _) => Resolve(decided, n, d, t)
  }

  /** A decision to continue is replaced by an escalation once the files have stalled;
      `rationale` is the wording of the stall option, the one text the engines differ in. */
  function Redirect(rationale: string, threshold: int, c: Core, d: Decision): (Core, Decision) {
    if d.Continue? && IsStuck(c.stuck, threshold) then
      (c.(stuck := StuckReset(c.stuck), stalls := c.stalls + 1), StallEscalation(rationale, d.prompt, c.stuck.noChange))
    else
      (c, d)
  }

  /** Ask the brain for the next step. */
  function AskBrain(rationale: string, threshold: int, c: Core, lastText: string, t: Tick): Sourced {
    var asked := c.(asked := c.asked + [Query(lastText, c.guards.turns)]);
    match t.brain
    case Unreachable => WaitForBrain(asked, t.polls)
    case BrainThrows(f) => Failed(asked, f)
    case Decides(d) =>
      var (c', d') := Redirect(rationale, threshold, asked, d);
      Follow(c', d', t)
  }

  // ---- trace vocabulary ------------------------------------------------------

  predicate IsEnd(e: Event) {
    e.Stop? || e.Error?
  }

  /** The turn events of a trace, in order. */
  function TurnsOf(trace: seq<Event>): seq<Event> {
    if trace == [] then []
    else
      var last := trace[|trace| - 1];
      TurnsOf(trace[..|trace| - 1]) + if last.Turn? then [last] else []
  }

  lemma {:induction false} TurnsOfAppend(a: seq<Event>, b: seq<Event>)
    ensures TurnsOf(a + b) == TurnsOf(a) + TurnsOf(b)
  {
    if b == [] {
      assert a + b == a;
    } else {
      TurnsOfAppend(a, b[..|b| - 1]);
      assert (a + b)[..|a + b| - 1] == a + b[..|b| - 1];
    }
  }
}
