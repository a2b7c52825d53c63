/** Hook-attach mode (`src/attach/attachManager.ts`): the async handler is cut at its two awaits,
    so an interleaving of concurrent calls is a sequence of steps. */
module Attach {
  import opened Text
  import opened GuardPolicy

  datatype Why = LoopGuard | NotAttached | BrainStopped(text: string) | NoPrompt | GuardHit(reason: Reason)
      | Going(text: string) | HandlerError

  datatype HookDecision = KeepGoing(prompt: string, why: Why) | LetStop(why: Why)

  /** One registration. It outlives its entry in the session table while calls still hold it. */
  datatype Registration = Registration(
    goal: string,
    doneCriteria: string,
    guards: GuardState,
    registeredAt: int,
    turns: nat,
    lastActivity: Option<int>,
    last: Option<HookDecision>,
    needsInput: bool)

  /** Where a call to `handle` is: waiting for the transcript, waiting for the brain, or answered. */
  datatype Flight = Reading(reg: nat) | Asking(reg: nat, turnNumber: nat) | Answered

  datatype BrainReply = BrainFails | SaysStop(reason: string, needsInput: bool)
      | SaysContinue(prompt: string, reason: string)

  datatype Op =
    | Register(session: string, goal: string, doneCriteria: string, now: int)
    | Unregister(session: string)
    | Begin(session: string, stopHookActive: bool, now: int)
    | ReadReturns(call: nat, ok: bool)
    | BrainReturns(call: nat, reply: BrainReply, elapsedMs: int)

  /** `regs` are the registration objects ever made, `sessions` the table, `flights` the calls, and
      `answers` every decision returned together with the registration it was made for. */
  datatype State = State(
    regs: seq<Registration>,
    sessions: map<string, nat>,
    flights: seq<Flight>,
    answers: seq<(Option<nat>, HookDecision)>)

  const EMPTY := State([], map[], [], [])

  /** `record`: the decision goes on the registration; a continue advances its turn counter. */
  function Note(r: Registration, d: HookDecision, needsInput: bool): Registration {
    r.(last := Some(d), needsInput := needsInput, turns := if d.KeepGoing? then r.turns + 1 else r.turns)
  }

  /** What a brain reply leads to: the decision, the guard state after it, and the needs-input flag. */
  function Weigh(limits: Limits, g: GuardState, reply: BrainReply, elapsedMs: int): (HookDecision, GuardState, bool) {
    match reply
    case BrainFails => (LetStop(HandlerError), g, false)
    case SaysStop(reason, needsInput) =>
      (LetStop(BrainStopped(if reason == "" then "brain decided to stop" else reason)), g, needsInput)
    case SaysContinue(said, reason) =>
      var prompt := Trim(said);
      if prompt == "" then (LetStop(NoPrompt), g, false)
      else
        var (g', stop) := GuardCheck(limits, g, prompt, elapsedMs);
        if stop.Some? then (LetStop(GuardHit(stop.value)), g', false)
        else (KeepGoing(prompt, Going(if reason == "" then "continuing" else reason)), g', false)
  }

  function Step(limits: Limits, s: State, op: Op): State {
    match op
    case Register(session, goal, doneCriteria, now) =>
      s.(regs := s.regs + [Registration(goal, doneCriteria, NO_TURNS, now, 0, None, None, false)],
         sessions := s.sessions[session := |s.regs|])
    case Unregister(session) => s.(sessions := s.sessions - {session})
    case Begin(session, stopHookActive, now) =>
      if stopHookActive then
        s.(flights := s.flights + [Answered], answers := s.answers + [(None, LetStop(LoopGuard))])
      else if session !in s.sessions || s.sessions[session] >= |s.regs| then
        s.(flights := s.flights + [Answered], answers := s.answers + [(None, LetStop(NotAttached))])
      else
        var k := s.sessions[session];
        s.(regs := s.regs[k := s.regs[k].(lastActivity := Some(now))], flights := s.flights + [Reading(k)])
    case ReadReturns(call, ok) =>
      if call >= |s.flights| || !s.flights[call].Reading? || s.flights[call].reg >= |s.regs| then s
      else if !ok then
        s.(flights := s.flights[call := Answered], answers := s.answers + [(None, LetStop(HandlerError))])
      else
        var k := s.flights[call].reg;
        s.(flights := s.flights[call := Asking(k, s.regs[k].guards.turns + 1)])
    case BrainReturns(call, reply, elapsedMs) =>
      if call >= |s.flights| || !s.flights[call].Asking? || s.flights[call].reg >= |s.regs| then s
      else if reply.BrainFails? then
        s.(flights := s.flights[call := Answered], answers := s.answers + [(None, LetStop(HandlerError))])
      else
        var k := s.flights[call].reg;
        var (d, g, needsInput) := Weigh(limits, s.regs[k].guards, reply, elapsedMs);
        State(s.regs[k := Note(s.regs[k].(guards := g), d, needsInput)], s.sessions, s.flights[call := Answered],
              s.answers + [(Some(k), d)])
  }

  /** Any interleaving: a sequence of steps from the empty manager. */
  function Run(limits: Limits, ops: seq<Op>): State {
    if ops == [] then EMPTY else Step(limits, Run(limits, ops[..|ops| - 1]), ops[|ops| - 1])
  }

  class AttachManager {
    const limits: Limits
    var regs: seq<Registration>
    var sessions: map<string, nat>
    var flights: seq<Flight>
    ghost var answers: seq<(Option<nat>, HookDecision)>

    constructor (limits: Limits)
      ensures this.limits == limits && View() == EMPTY
    {
      this.limits := limits;
      regs, sessions, flights := [], map[], [];
      answers := [];
    }

    ghost function View(): State
      reads this
    {
      State(regs, sessions, flights, answers)
    }

    ghost predicate Linked()
      reads this
    {
      && (forall s :: s in sessions ==> sessions[s] < |regs|)
      && (forall i :: 0 <= i < |flights| && !flights[i].Answered? ==> flights[i].reg < |regs|)
    }

    /** Attach a session with fresh guards; re-registering makes a new registration. */
    method Registers(session: string, goal: string, doneCriteria: string, now: int)
      requires Linked()
      modifies this
      ensures Linked() && View() == Step(limits, old(View()), Register(session, goal, doneCriteria, now))
    {
      sessions := sessions[session := |regs|];
      regs := regs + [Registration(goal, doneCriteria, NO_TURNS, now, 0, None, None, false)];
    }

    method Unregisters(session: string)
      requires Linked()
      modifies this
      ensures Linked() && View() == Step(limits, old(View()), Unregister(session))
    {
      sessions := sessions - {session};
    }

    /** `handle` up to its first await: `None` means the transcript read is now pending. */
    method Begins(session: string, stopHookActive: bool, now: int) returns (answer: Option<HookDecision>, call: nat)
      requires Linked()
      modifies this
      ensures Linked() && View() == Step(limits, old(View()), Begin(session, stopHookActive, now))
      ensures call == old(|flights|)
      ensures answer.Some? ==> answers == old(answers) + [(None, answer.value)]
      ensures answer == None ==> answers == old(answers)
    {
      call := |flights|;
      if stopHookActive {
        answer := Some(LetStop(LoopGuard));
      } else if session !in sessions {
        answer := Some(LetStop(NotAttached));
      } else {
        var k := sessions[session];
        regs := regs[k := regs[k].(lastActivity := Some(now))];
        flights := flights + [Reading(k)];
        return None, call;
      }
      flights := flights + [Answered];
      answers := answers + [(None, answer.value)];
    }

    /** `handle` between its awaits: the brain is asked with the registration's own turn number. */
    method ReadReturned(call: nat, ok: bool) returns (answer: Option<HookDecision>)
      requires Linked() && call < |flights| && flights[call].Reading?
      modifies this
      ensures Linked() && View() == Step(limits, old(View()), ReadReturns(call, ok))
      ensures answers == if answer.Some? then old(answers) + [(None, answer.value)] else old(answers)
    {
      if !ok {
        flights := flights[call := Answered];
        answers := answers + [(None, LetStop(HandlerError))];
        return Some(LetStop(HandlerError));
      }
      var k := flights[call].reg;
      flights := flights[call := Asking(k, regs[k].guards.turns + 1)];
      return None;
    }

    /** `handle` after the brain answered: decide, check the guards, record, return. */
    method BrainReturned(call: nat, reply: BrainReply, elapsedMs: int) returns (answer: HookDecision)
      requires Linked() && call < |flights| && flights[call].Asking?
      modifies this
      ensures Linked() && View() == Step(limits, old(View()), BrainReturns(call, reply, elapsedMs))
      ensures |answers| == |old(answers)| + 1 && answers[|answers| - 1].1 == answer
    {
      var k := flights[call].reg;
      flights := flights[call := Answered];
      match reply {
        case BrainFails =>
          answer := LetStop(HandlerError);
          answers := answers + [(None, answer)];
          return;
        case SaysStop(reason, needsInput) =>
          answer := LetStop(BrainStopped(if reason == "" then "brain decided to stop" else reason));
          regs := regs[k := Note(regs[k], answer, needsInput)];
        case SaysContinue(said, reason) =>
          var prompt := Trim(said);
          if prompt == "" {
            answer := LetStop(NoPrompt);
            regs := regs[k := Note(regs[k], answer, false)];
          } else {
            var (g, stop) := GuardCheck(limits, regs[k].guards, prompt, elapsedMs);
            answer := if stop.Some? then LetStop(GuardHit(stop.value))
              else KeepGoing(prompt, Going(if reason == "" then "continuing" else reason));
            regs := regs[k := Note(regs[k].(guards := g), answer, false)];
          }
      }
      answers := answers + [(Some(k), answer)];
    }
  }

  // ---- over every interleaving -----------------------------------------------

  /** How many continue decisions were returned for registration `k`. */
  function Continues(answers: seq<(Option<nat>, HookDecision)>, k: nat): nat {
    if answers == [] then 0
    else
      var (reg, d) := answers[|answers| - 1];
      Continues(answers[..|answers| - 1], k) + if reg == Some(k) && d.KeepGoing? then 1 else 0
  }

  lemma ContinuesAppend(answers: seq<(Option<nat>, HookDecision)>, x: (Option<nat>, HookDecision), k: nat)
    ensures Continues(answers + [x], k) == Continues(answers, k) + if x.0 == Some(k) && x.1.KeepGoing? then 1 else 0
  {
    assert (answers + [x])[..|answers|] == answers;
  }

  /** What the continue decisions returned for registration `k` told the session to do. */
  function Said(answers: seq<(Option<nat>, HookDecision)>, k: nat): seq<string> {
    if answers == [] then []
    else
      var (reg, d) := answers[|answers| - 1];
      var before := Said(answers[..|answers| - 1], k);
      if reg == Some(k) && d.KeepGoing? then before + [d.prompt] else before
  }

  lemma SaidAppend(answers: seq<(Option<nat>, HookDecision)>, x: (Option<nat>, HookDecision), k: nat)
    ensures Said(answers + [x], k) == Said(answers, k) + if x.0 == Some(k) && x.1.KeepGoing? then [x.1.prompt] else []
  {
    assert (answers + [x])[..|answers|] == answers;
  }

  ghost predicate Counted(limits: Limits, s: State, k: nat)
    requires k < |s.regs|
  {
    var r := s.regs[k];
    && r.turns == Continues(s.answers, k)
    && r.turns <= r.guards.turns
    && (r.turns == 0 || r.turns <= limits.maxTurns)
    && Echoes(limits, r.guards, Said(s.answers, k))
  }

  ghost predicate Inv(limits: Limits, s: State) {
    && (forall k :: 0 <= k < |s.regs| ==> Counted(limits, s, k))
    && (forall i :: 0 <= i < |s.answers| ==> s.answers[i].0.Some? ==> s.answers[i].0.value < |s.regs|)
    && (forall i :: 0 <= i < |s.answers| ==> s.answers[i].1.KeepGoing? ==>
        s.answers[i].0.Some? && HasInk(s.answers[i].1.prompt))
  }

  lemma {:induction false} NoAnswersYet(answers: seq<(Option<nat>, HookDecision)>, k: nat)
    requires forall i :: 0 <= i < |answers| ==> answers[i].0.Some? ==> answers[i].0.value < k
    ensures Continues(answers, k) == 0 && Said(answers, k) == []
  {
    if answers != [] {
      NoAnswersYet(answers[..|answers| - 1], k);
    }
  }

  lemma ContinueHasInk(s: string)
    requires Trim(s) != ""
    ensures HasInk(Trim(s))
  {
    TrimEndInked(TrimStart(s));
  }

  /** One more answer, and registration `k` replaced by what recording it makes of it. */
  lemma AnswerKeeps(limits: Limits, s: State, k: nat, g: GuardState, d: HookDecision, needsInput: bool,
                    flights: seq<Flight>)
    requires Inv(limits, s) && k < |s.regs|
    requires g.turns >= s.regs[k].guards.turns
    requires d.KeepGoing? ==> HasInk(d.prompt) && s.regs[k].guards.turns < g.turns <= limits.maxTurns
    requires Echoes(limits, g, Said(s.answers, k) + if d.KeepGoing? then [d.prompt] else [])
    ensures Inv(limits, State(s.regs[k := Note(s.regs[k].(guards := g), d, needsInput)], s.sessions, flights,
                              s.answers + [(Some(k), d)]))
  {
    var s' := State(s.regs[k := Note(s.regs[k].(guards := g), d, needsInput)], s.sessions, flights,
                    s.answers + [(Some(k), d)]);
    forall j | 0 <= j < |s'.regs|
      ensures Counted(limits, s', j)
    {
      assert Counted(limits, s, j);
      ContinuesAppend(s.answers, (Some(k), d), j);
      SaidAppend(s.answers, (Some(k), d), j);
    }
  }

  /** An answer given before any registration is involved is a stop. */
  lemma RefusalKeeps(limits: Limits, s: State, d: HookDecision, flights: seq<Flight>)
    requires Inv(limits, s) && d.LetStop?
    ensures Inv(limits, s.(flights := flights, answers := s.answers + [(None, d)]))
  {
    var s' := s.(flights := flights, answers := s.answers + [(None, d)]);
    forall j | 0 <= j < |s'.regs|
      ensures Counted(limits, s', j)
    {
      assert Counted(limits, s, j);
      ContinuesAppend(s.answers, (None, d), j);
      SaidAppend(s.answers, (None, d), j);
    }
  }

  /** A check that lets a prompt through has counted it within the limit. */
  lemma WeighCounts(limits: Limits, g: GuardState, said: seq<string>, reply: BrainReply, elapsedMs: int)
    requires Echoes(limits, g, said)
    ensures var (d, g', _) := Weigh(limits, g, reply, elapsedMs);
            && g'.turns >= g.turns && (d.KeepGoing? ==> HasInk(d.prompt) && g.turns < g'.turns <= limits.maxTurns)
            && Echoes(limits, g', said + if d.KeepGoing? then [d.prompt] else [])
  {
    assert said + [] == said;
    if reply.SaysContinue? && Trim(reply.prompt) != "" {
      ContinueHasInk(reply.prompt);
      CheckKeepsEchoes(limits, g, said, Trim(reply.prompt), elapsedMs);
    }
  }

  lemma StepKeeps(limits: Limits, s: State, op: Op)
    requires Inv(limits, s)
    ensures Inv(limits, Step(limits, s, op))
  {
    var s' := Step(limits, s, op);
    match op {
      case BrainReturns(call, reply, elapsedMs) =>
        if s' != s {
          if reply.BrainFails? {
            RefusalKeeps(limits, s, LetStop(HandlerError), s'.flights);
          } else {
            var k := s.flights[call].reg;
            assert Counted(limits, s, k);
            WeighCounts(limits, s.regs[k].guards, Said(s.answers, k), reply, elapsedMs);
            var (d, g, needsInput) := Weigh(limits, s.regs[k].guards, reply, elapsedMs);
            AnswerKeeps(limits, s, k, g, d, needsInput, s'.flights);
          }
        }
      case _ => QuietStepKeeps(limits, s, op);
    }
  }

  lemma QuietStepKeeps(limits: Limits, s: State, op: Op)
    requires Inv(limits, s) && !op.BrainReturns?
    ensures Inv(limits, Step(limits, s, op))
  {
    var s' := Step(limits, s, op);
    if |s'.answers| > |s.answers| {
      RefusalKeeps(limits, s, s'.answers[|s.answers|].1, s'.flights);
    } else {
      forall k | 0 <= k < |s'.regs|
        ensures Counted(limits, s', k)
      {
        if k < |s.regs| {
          assert Counted(limits, s, k);
        } else {
          NoAnswersYet(s.answers, k);
        }
      }
    }
  }

  lemma {:induction false} RunKeeps(limits: Limits, ops: seq<Op>)
    ensures Inv(limits, Run(limits, ops))
  {
    if ops != [] {
      RunKeeps(limits, ops[..|ops| - 1]);
      StepKeeps(limits, Run(limits, ops[..|ops| - 1]), ops[|ops| - 1]);
    }
  }

  /** However concurrent calls interleave with register and unregister, a registration's `turns` is the
      number of continues returned for it, and there are never more than `maxTurns` of them. */
  lemma ContinuesAreBounded(limits: Limits, ops: seq<Op>, k: nat)
    requires k < |Run(limits, ops).regs|
    ensures var s := Run(limits, ops);
            && s.regs[k].turns == Continues(s.answers, k)
            && Continues(s.answers, k) <= if limits.maxTurns < 0 then 0 else limits.maxTurns
  {
    RunKeeps(limits, ops);
    assert Counted(limits, Run(limits, ops), k);
  }

  /** ... and no threshold-many consecutive ones say the same, although concurrent calls share one guard and a blocked
      call pushes its prompt onto the window too; with no positive threshold there is none at all. */
  lemma ContinuesDoNotPingPong(limits: Limits, ops: seq<Op>, k: nat)
    requires k < |Run(limits, ops).regs|
    ensures var said := Said(Run(limits, ops).answers, k);
            && |said| == Continues(Run(limits, ops).answers, k)
            && if limits.pingPongThreshold >= 1 then NoPingPong(said, limits.pingPongThreshold) else said == []
  {
    RunKeeps(limits, ops);
    assert Counted(limits, Run(limits, ops), k);
    SaidAreContinues(Run(limits, ops).answers, k);
  }

  lemma {:induction false} SaidAreContinues(answers: seq<(Option<nat>, HookDecision)>, k: nat)
    ensures |Said(answers, k)| == Continues(answers, k)
  {
    if answers != [] { SaidAreContinues(answers[..|answers| - 1], k); }
  }

  /** Every continue belongs to a registration and carries a prompt that is not blank. */
  lemma ContinuesCarryPrompts(limits: Limits, ops: seq<Op>, i: nat)
    requires i < |Run(limits, ops).answers| && Run(limits, ops).answers[i].1.KeepGoing?
    ensures var (reg, d) := Run(limits, ops).answers[i];
            reg.Some? && reg.value < |Run(limits, ops).regs| && HasInk(d.prompt)
  {
    RunKeeps(limits, ops);
  }
}
