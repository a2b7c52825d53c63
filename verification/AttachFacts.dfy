/** What hook-attach mode answers, over every interleaving of calls: who is attached, which call is answered when and
    with what, and what a registration shows. */
module AttachFacts {
  import opened Text
  import opened GuardPolicy
  import opened Attach

  // ---- who is attached ---------------------------------------------------------------

  /** How many registrations there were. */
  function Registrations(ops: seq<Op>): nat {
    if ops == [] then 0 else Registrations(ops[..|ops| - 1]) + if ops[|ops| - 1].Register? then 1 else 0
  }

  /** The session's registration, by number: that of its last register, unless it was unregistered since. */
  function AttachedAs(ops: seq<Op>, session: string): Option<nat> {
    if ops == [] then None
    else
      var before := ops[..|ops| - 1];
      match ops[|ops| - 1]
      case Register(id, _, _, _) => if id == session then Some(Registrations(before)) else AttachedAs(before, session)
      case Unregister(id) => if id == session then None else AttachedAs(before, session)
      case _ => AttachedAs(before, session)
  }

  /** The session table is that of the last register or unregister of each session. */
  lemma {:induction false} AttachedIff(limits: Limits, ops: seq<Op>, session: string)
    ensures var s := Run(limits, ops);
            && |s.regs| == Registrations(ops)
            && (if AttachedAs(ops, session) == None then session !in s.sessions
                else session in s.sessions && s.sessions[session] == AttachedAs(ops, session).value < |s.regs|)
  {
    if ops != [] { AttachedIff(limits, ops[..|ops| - 1], session); }
  }

  /** The op that made registration `k`. */
  function MadeBy(ops: seq<Op>, k: nat): Op
    requires k < Registrations(ops)
  {
    var before := ops[..|ops| - 1];
    if ops[|ops| - 1].Register? && Registrations(before) == k then ops[|ops| - 1] else MadeBy(before, k)
  }

  /** A registration keeps the goal, the done criteria and the time it was made with. */
  lemma {:induction false} RegistrationIsItsRegister(limits: Limits, ops: seq<Op>, k: nat)
    requires k < Registrations(ops)
    ensures |Run(limits, ops).regs| == Registrations(ops)
    ensures var r, op := Run(limits, ops).regs[k], MadeBy(ops, k);
            op.Register? && r.goal == op.goal && r.doneCriteria == op.doneCriteria && r.registeredAt == op.now
  {
    AttachedIff(limits, ops, "");
    AttachedIff(limits, ops[..|ops| - 1], "");
    if k < Registrations(ops[..|ops| - 1]) {
      RegistrationIsItsRegister(limits, ops[..|ops| - 1], k);
      RegistrationStays(limits, Run(limits, ops[..|ops| - 1]), ops[|ops| - 1], k);
    }
  }

  lemma RegistrationStays(limits: Limits, s: State, op: Op, k: nat)
    requires k < |s.regs| && k < |Step(limits, s, op).regs|
    ensures var r, r' := s.regs[k], Step(limits, s, op).regs[k];
            r'.goal == r.goal && r'.doneCriteria == r.doneCriteria && r'.registeredAt == r.registeredAt
  {
  }

  // ---- what each op does -------------------------------------------------------------

  /** A new registration starts with fresh guards and nothing said; the others stay as they are. */
  lemma RegisterIsFresh(limits: Limits, s: State, session: string, goal: string, doneCriteria: string, now: int)
    ensures var s' := Step(limits, s, Register(session, goal, doneCriteria, now));
            && |s'.regs| == |s.regs| + 1 && s'.regs[..|s.regs|] == s.regs && IsFresh(s'.regs[|s.regs|])
            && s'.flights == s.flights && s'.answers == s.answers
  {
  }

  predicate IsFresh(r: Registration) {
    && r.guards.turns == 0 && r.guards.recent == [] && r.turns == 0
    && r.lastActivity == None && r.last == None && !r.needsInput
  }

  /** Unregistering detaches: calls under way keep their registration. */
  lemma UnregisterOnlyDetaches(limits: Limits, s: State, session: string)
    ensures var s' := Step(limits, s, Unregister(session));
            s'.regs == s.regs && s'.flights == s.flights && s'.answers == s.answers
  {
  }

  /** A call that begins is answered at once when the stop hook is already at work or the session is not attached, and
      waits for the transcript of its registration otherwise. */
  lemma CallBegins(limits: Limits, ops: seq<Op>, session: string, stopHookActive: bool, now: int)
    ensures var s, s' := Run(limits, ops), Step(limits, Run(limits, ops), Begin(session, stopHookActive, now));
            var k := AttachedAs(ops, session);
            if stopHookActive then
              s' == s.(flights := s.flights + [Answered], answers := s.answers + [(None, LetStop(LoopGuard))])
            else if k == None then
              s' == s.(flights := s.flights + [Answered], answers := s.answers + [(None, LetStop(NotAttached))])
            else
              && k.value < |s.regs|
              && s' == s.(regs := s.regs[k.value := s.regs[k.value].(lastActivity := Some(now))],
                          flights := s.flights + [Reading(k.value)])
  {
    AttachedIff(limits, ops, session);
  }

  /** Calls that wait have a registration. */
  lemma {:induction false} WaitingCallsAreAttached(limits: Limits, ops: seq<Op>)
    ensures var s := Run(limits, ops);
            forall i :: 0 <= i < |s.flights| && !s.flights[i].Answered? ==> s.flights[i].reg < |s.regs|
  {
    if ops != [] {
      WaitingCallsAreAttached(limits, ops[..|ops| - 1]);
      AttachedIff(limits, ops[..|ops| - 1], "");
    }
  }

  /** A transcript that cannot be read lets the session stop; one that can has the brain asked, about the turn after
      those the registration's guards have counted by now. */
  lemma ReadReturnsToTheCall(limits: Limits, ops: seq<Op>, call: nat, ok: bool)
    requires call < |Run(limits, ops).flights| && Run(limits, ops).flights[call].Reading?
    ensures var s, s' := Run(limits, ops), Step(limits, Run(limits, ops), ReadReturns(call, ok));
            var k := s.flights[call].reg;
            && k < |s.regs| && s'.regs == s.regs && s'.sessions == s.sessions
            && s'.flights == s.flights[call := if ok then Asking(k, s.regs[k].guards.turns + 1) else Answered]
            && s'.answers == if ok then s.answers else s.answers + [(None, LetStop(HandlerError))]
  {
    WaitingCallsAreAttached(limits, ops);
    ReadStep(limits, Run(limits, ops), call, ok);
  }

  lemma ReadStep(limits: Limits, s: State, call: nat, ok: bool)
    requires call < |s.flights| && s.flights[call].Reading? && s.flights[call].reg < |s.regs|
    ensures var k := s.flights[call].reg;
            var s' := Step(limits, s, ReadReturns(call, ok));
            && s'.regs == s.regs && s'.sessions == s.sessions
            && s'.flights == s.flights[call := if ok then Asking(k, s.regs[k].guards.turns + 1) else Answered]
            && s'.answers == if ok then s.answers else s.answers + [(None, LetStop(HandlerError))]
  {
  }

  /** What the brain's reply comes to: a stop keeps its reason, or gets one; a continue without a prompt is a stop; one
      with a prompt is for the guards to decide. */
  lemma BrainIsHeard(limits: Limits, g: GuardState, reply: BrainReply, elapsedMs: int)
    ensures var (d, g', needsInput) := Weigh(limits, g, reply, elapsedMs);
            match reply
            case BrainFails => d == LetStop(HandlerError) && g' == g && !needsInput
            case SaysStop(reason, needs) =>
              && d.LetStop? && d.why.BrainStopped? && g' == g && needsInput == needs
              && (reason != "" ==> d.why.text == reason) && (reason == "" ==> d.why.text == "brain decided to stop")
            case SaysContinue(prompt, reason) =>
              && !needsInput
              && (!HasInk(prompt) ==> d == LetStop(NoPrompt) && g' == g)
              && (HasInk(prompt) ==>
                    var (checked, stop) := GuardCheck(limits, g, Trim(prompt), elapsedMs);
                    && g' == checked
                    && (stop.Some? ==> d == LetStop(GuardHit(stop.value)))
                    && (stop == None ==> d == KeepGoing(Trim(prompt), Going(if reason != "" then reason
                                                                            else "continuing"))))
  {
    if reply.SaysContinue? { TrimIsBlankTest(reply.prompt); }
  }

  /** The reply answers the call, and the registration shows it: the last decision, whether the user is wanted, and one
      more turn if the session is to go on. A brain that fails leaves no trace on the registration. */
  lemma BrainReturnsToTheCall(limits: Limits, ops: seq<Op>, call: nat, reply: BrainReply, elapsedMs: int)
    requires call < |Run(limits, ops).flights| && Run(limits, ops).flights[call].Asking?
    ensures var s, s' := Run(limits, ops), Step(limits, Run(limits, ops), BrainReturns(call, reply, elapsedMs));
            var k := s.flights[call].reg;
            && k < |s.regs|
            && s'.sessions == s.sessions && s'.flights == s.flights[call := Answered]
            && if reply.BrainFails? then
                 s'.regs == s.regs && s'.answers == s.answers + [(None, LetStop(HandlerError))]
               else
                 var (d, g, needsInput) := Weigh(limits, s.regs[k].guards, reply, elapsedMs);
                 && s'.answers == s.answers + [(Some(k), d)]
                 && |s'.regs| == |s.regs| && (forall j :: 0 <= j < |s.regs| && j != k ==> s'.regs[j] == s.regs[j])
                 && s'.regs[k] == s.regs[k].(guards := g, last := Some(d), needsInput := needsInput,
                                             turns := s.regs[k].turns + if d.KeepGoing? then 1 else 0)
  {
    WaitingCallsAreAttached(limits, ops);
  }

  // ---- every call is answered once ---------------------------------------------------

  function Begun(ops: seq<Op>): nat {
    if ops == [] then 0 else Begun(ops[..|ops| - 1]) + if ops[|ops| - 1].Begin? then 1 else 0
  }

  function AnsweredCalls(flights: seq<Flight>): nat {
    if flights == [] then 0
    else AnsweredCalls(flights[..|flights| - 1]) + if flights[|flights| - 1].Answered? then 1 else 0
  }

  lemma AnsweredSnoc(flights: seq<Flight>, f: Flight)
    ensures AnsweredCalls(flights + [f]) == AnsweredCalls(flights) + if f.Answered? then 1 else 0
  {
    assert (flights + [f])[..|flights|] == flights;
  }

  lemma {:induction false} AnsweredUpdate(flights: seq<Flight>, i: nat, f: Flight)
    requires i < |flights|
    ensures AnsweredCalls(flights[i := f]) + (if flights[i].Answered? then 1 else 0)
            == AnsweredCalls(flights) + (if f.Answered? then 1 else 0)
  {
    var n := |flights| - 1;
    if i < n {
      AnsweredUpdate(flights[..n], i, f);
      assert flights[i := f][..n] == flights[..n][i := f];
    } else {
      assert flights[i := f][..n] == flights[..n];
    }
  }

  /** Each call that begins is one flight, and there are as many answers as flights that are over: no call is answered
      twice, and none is forgotten. */
  lemma {:induction false} EveryCallIsAnsweredOnce(limits: Limits, ops: seq<Op>)
    ensures var s := Run(limits, ops); |s.flights| == Begun(ops) && |s.answers| == AnsweredCalls(s.flights)
  {
    if ops != [] {
      var n := |ops| - 1;
      EveryCallIsAnsweredOnce(limits, ops[..n]);
      StepAnswersOnce(limits, Run(limits, ops[..n]), ops[n]);
    }
  }

  lemma StepAnswersOnce(limits: Limits, s: State, op: Op)
    ensures var s' := Step(limits, s, op);
            && |s'.flights| == |s.flights| + (if op.Begin? then 1 else 0)
            && |s'.answers| + AnsweredCalls(s.flights) == |s.answers| + AnsweredCalls(s'.flights)
  {
    var s' := Step(limits, s, op);
    match op {
      case Begin(_, _, _) => AnsweredSnoc(s.flights, s'.flights[|s.flights|]);
      case ReadReturns(call, _) => if call < |s.flights| { AnsweredUpdate(s.flights, call, s'.flights[call]); }
      case BrainReturns(call, _, _) => if call < |s.flights| { AnsweredUpdate(s.flights, call, s'.flights[call]); }
      case _ =>
    }
  }
}
