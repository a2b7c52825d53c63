/** Turn-level self-healing: `runTurnRecovered` of `src/orchestrator.ts`. */
module Recovery {
  import opened Text
  import opened RunModel

  const MAX_TURN_RECOVERIES := 2
  const GRACE_QUIET_MS := 120_000
  const GRACE_CAP_MS := 900_000
  const GRACE_STEP_MS := 5_000

  /** Auth, rate-limit and cwd failures need a person or a pause, never a respawn. */
  predicate Recoverable(f: Failure) {
    f.kind in {Timeout, ClaudeExited, NotRunning}
  }

  predicate IsSlashCommand(p: string) {
    "/" <= Trim(p)
  }

  /** An error message as a recovery event carries it. */
  function Clipped(message: string): string {
    if |message| <= 200 then message else message[..200]
  }

  const INTERRUPTED :=
    "Your previous " + "instruction was interrupted mid-execution by a technical failure. "
    + "The instruction was:\n---\n"
  const RECONCILE :=
    "\n---\nCheck what has ALREADY been done (files on disk, repo state, your own prior messages) "
    + "and complete only the remainder — do not redo finished work."

  /** A prompt sent again after partial execution asks to reconcile first; slash commands go verbatim. */
  function Reinjection(p: string): string {
    if IsSlashCommand(p) then p else INTERRUPTED + p + RECONCILE
  }

  lemma ReinjectionIsNotVerbatim(p: string)
    ensures Reinjection(p) == p <==> IsSlashCommand(p)
  {
    if !IsSlashCommand(p) {
      assert |Reinjection(p)| > |p|;
    }
  }

  // ---- the grace window ------------------------------------------------------

  datatype Verdict = Landed(text: string) | Interrupted | Reconcile | Untouched

  /** The verdict, how many polls it took, and when it was reached. */
  datatype Waited = Waited(verdict: Verdict, polls: nat, at: int)

  /** Wait while the transcript keeps changing; `now` counts milliseconds since the window opened. */
  function Grace(polls: nat -> GracePoll, i: nat, now: int, until: int, lastSize: nat): (w: Waited)
    ensures w.verdict != Untouched && w.polls >= i
    decreases GRACE_CAP_MS - now
  {
    if now < until && now < GRACE_CAP_MS then
      var p := polls(i);
      var woke := now + GRACE_STEP_MS + p.late;
      if p.stop then Waited(Interrupted, i + 1, woke)
      else if p.size.Some? && p.size.value != lastSize then
        Grace(polls, i + 1, woke, woke + GRACE_QUIET_MS, p.size.value)
      else if p.ended then Waited(if p.landed.Some? then Landed(p.landed.value) else Reconcile, i + 1, woke)
      else Grace(polls, i + 1, woke + p.reading, until, lastSize)
    else Waited(Reconcile, i, now)
  }

  /** The hard cap bounds the window: at most 180 five-second polls, whatever the transcript does. */
  lemma {:induction false} GraceIsBounded(polls: nat -> GracePoll, i: nat, now: int, until: int, lastSize: nat)
    requires now >= GRACE_STEP_MS * i && i <= 180
    ensures Grace(polls, i, now, until, lastSize).polls <= 180
    decreases GRACE_CAP_MS - now
  {
    if now < until && now < GRACE_CAP_MS {
      var p := polls(i);
      var woke := now + GRACE_STEP_MS + p.late;
      if p.stop {
      } else if p.size.Some? && p.size.value != lastSize {
        GraceIsBounded(polls, i + 1, woke, woke + GRACE_QUIET_MS, p.size.value);
      } else if !p.ended {
        GraceIsBounded(polls, i + 1, woke + p.reading, until, lastSize);
      }
    }
  }

  /** The time polls `from` up to `to` take when none of them restarts the quiet window. */
  function QuietTime(polls: nat -> GracePoll, from: nat, to: nat): int
    decreases to as int - from as int
  {
    if from >= to then 0
    else GRACE_STEP_MS + polls(from).late + polls(from).reading + QuietTime(polls, from + 1, to)
  }

  /** No poll in the range shows a new size, a turn end or a stop. */
  ghost predicate Silent(polls: nat -> GracePoll, from: nat, to: nat, size: nat) {
    forall k :: from <= k < to ==>
      !polls(k).stop && !polls(k).ended && (polls(k).size == None || polls(k).size == Some(size))
  }

  /** Why a wait that decided to reconcile gave up. */
  ghost predicate GaveUpFairly(polls: nat -> GracePoll, i: nat, now: int, until: int, lastSize: nat, w: Waited) {
    || (w.polls > i && polls(w.polls - 1).ended && polls(w.polls - 1).landed == None)
    || w.at >= GRACE_CAP_MS
    || (Silent(polls, i, w.polls, lastSize) && now + QuietTime(polls, i, w.polls) >= until)
    || exists from, size ::
         && i < from <= w.polls
         && polls(from - 1).size == Some(size)
         && Silent(polls, from, w.polls, size)
         && QuietTime(polls, from, w.polls) >= GRACE_QUIET_MS
  }

  /** The turn is re-run only after a reply-less turn end, the hard cap, or two minutes of real silence. */
  lemma {:induction false} ReconcileOnlyWhenQuiet(polls: nat -> GracePoll, i: nat, now: int, until: int, lastSize: nat)
    requires Grace(polls, i, now, until, lastSize).verdict == Reconcile
    ensures GaveUpFairly(polls, i, now, until, lastSize, Grace(polls, i, now, until, lastSize))
    decreases GRACE_CAP_MS - now
  {
    var w := Grace(polls, i, now, until, lastSize);
    if now < until && now < GRACE_CAP_MS {
      var p := polls(i);
      var woke := now + GRACE_STEP_MS + p.late;
      if p.size.Some? && p.size.value != lastSize {
        var size := p.size.value;
        ReconcileOnlyWhenQuiet(polls, i + 1, woke, woke + GRACE_QUIET_MS, size);
        assert polls(i + 1 - 1).size == Some(size);
        assert QuietTime(polls, i, w.polls) == GRACE_STEP_MS + p.late + p.reading + QuietTime(polls, i + 1, w.polls);
      } else if !p.ended {
        ReconcileOnlyWhenQuiet(polls, i + 1, woke + p.reading, until, lastSize);
        assert QuietTime(polls, i, w.polls) == GRACE_STEP_MS + p.late + p.reading + QuietTime(polls, i + 1, w.polls);
      }
    }
  }

  method WaitOutGrace(polls: nat -> GracePoll, size: nat) returns (verdict: Verdict)
    ensures verdict == Grace(polls, 0, 0, GRACE_QUIET_MS, size).verdict
  {
    var now, graceUntil, lastSize, i := 0, GRACE_QUIET_MS, size, 0;
    while now < graceUntil && now < GRACE_CAP_MS
      invariant Grace(polls, 0, 0, GRACE_QUIET_MS, size) == Grace(polls, i, now, graceUntil, lastSize)
      decreases GRACE_CAP_MS - now
    {
      var p := polls(i);
      i := i + 1;
      now := now + GRACE_STEP_MS + p.late;
      if p.stop {
        return Interrupted;
      }
      if p.size.Some? && p.size.value != lastSize {
        lastSize := p.size.value;
        graceUntil := now + GRACE_QUIET_MS;
        continue;
      }
      if p.ended {
        if p.landed.Some? {
          return Landed(p.landed.value);
        }
        return Reconcile;
      }
      now := now + p.reading;
    }
    return Reconcile;
  }

  /** What the transcript says happened to the interrupted turn. */
  function Triage(offset: nat, a: Attempt): Verdict {
    if a.size == None || a.size.value <= offset then Untouched
    else if a.ended && a.landed.Some? then Landed(a.landed.value)
    else Grace(a.grace, 0, 0, GRACE_QUIET_MS, a.size.value).verdict
  }

  // ---- the ladder ------------------------------------------------------------

  /** What is done to the driver, in order. */
  datatype Act = Spawn(attempt: nat) | Send(attempt: nat, prompt: string)

  datatype Outcome = Done(prompt: string, text: string) | StoppedMidTurn | Gave(failure: Failure)

  datatype Healed = Healed(events: seq<Event>, acts: seq<Act>, outcome: Outcome)

  /** How the body of one attempt ends, before the error handler looks at it. */
  datatype Tried = Tried(events: seq<Event>, acts: seq<Act>, toSend: string, end: Outcome)

  function GateEvents(gates: seq<(string, bool)>): seq<Event> {
    if gates == [] then []
    else [Gate(gates[0].0), GateResolved(gates[0].0, gates[0].1)] + GateEvents(gates[1..])
  }

  function SendTurn(acts: seq<Act>, attempt: nat, prompt: string, answer: TurnAnswer): Tried {
    Tried(GateEvents(answer.gates), acts + [Send(attempt, prompt)], prompt,
          if answer.Replies? then Done(prompt, answer.text) else Gave(answer.failure))
  }

  function TryAttempt(prompt: string, offset: nat, a: Attempt, attempt: nat, toSend: string): Tried {
    if attempt == 0 then SendTurn([], 0, toSend, a.turn)
    else if a.stopAfterBackoff then Tried([], [], toSend, StoppedMidTurn)
    else if a.start.Some? then Tried([], [Spawn(attempt)], toSend, Gave(a.start.value))
    else
      match Triage(offset, a)
      case Landed(text) => Tried([], [Spawn(attempt)], toSend, Done(prompt, text))
      case Interrupted => Tried([], [Spawn(attempt)], toSend, StoppedMidTurn)
      case Reconcile => SendTurn([Spawn(attempt)], attempt, Reinjection(prompt), a.turn)
      case Untouched => SendTurn([Spawn(attempt)], attempt, toSend, a.turn)
  }

  function Ladder(n: nat, prompt: string, script: TurnScript, attempt: nat, toSend: string): Healed
    requires attempt <= MAX_TURN_RECOVERIES
    decreases MAX_TURN_RECOVERIES - attempt
  {
    var a := script.attempts(attempt);
    var t := TryAttempt(prompt, script.offset, a, attempt, toSend);
    if !t.end.Gave? then Healed(t.events, t.acts, t.end)
    else if a.stopAfterFailure then Healed(t.events, t.acts, StoppedMidTurn)
    else if attempt >= MAX_TURN_RECOVERIES || !Recoverable(t.end.failure) then Healed(t.events, t.acts, t.end)
    else
      var h := Ladder(n, prompt, script, attempt + 1, t.toSend);
      Healed(t.events + [Recovery(n, attempt + 1, Clipped(t.end.failure.message))] + h.events,
             t.acts + h.acts, h.outcome)
  }

  /** One sourced prompt, run to its end. */
  function Heal(n: nat, prompt: string, script: TurnScript): Healed {
    Ladder(n, prompt, script, 0, prompt)
  }

  function Before(events: seq<Event>, acts: seq<Act>, h: Healed): Healed {
    Healed(events + h.events, acts + h.acts, h.outcome)
  }

  /** The guarded part of the loop body: respawn, triage the transcript, send the turn. */
  method TryOnce(prompt: string, offset: nat, a: Attempt, attempt: nat, attemptPrompt: string) returns (t: Tried)
    ensures t == TryAttempt(prompt, offset, a, attempt, attemptPrompt)
  {
    var toSend := attemptPrompt;
    var acts: seq<Act> := [];
    if attempt > 0 {
      if a.stopAfterBackoff {
        return Tried([], [], toSend, StoppedMidTurn);
      }
      acts := [Spawn(attempt)];
      if a.start.Some? {
        return Tried([], acts, toSend, Gave(a.start.value));
      }
      if a.size.Some? && a.size.value > offset {
        if a.ended && a.landed.Some? {
          return Tried([], acts, toSend, Done(prompt, a.landed.value));
        }
        var verdict := WaitOutGrace(a.grace, a.size.value);
        match verdict {
          case Interrupted => return Tried([], acts, toSend, StoppedMidTurn);
          case Landed(text) => return Tried([], acts, toSend, Done(prompt, text));
          case _ => toSend := Reinjection(prompt);
        }
      }
    }
    acts := acts + [Send(attempt, toSend)];
    t := Tried(GateEvents(a.turn.gates), acts, toSend,
               if a.turn.Replies? then Done(toSend, a.turn.text) else Gave(a.turn.failure));
  }

  method RunTurnRecovered(n: nat, prompt: string, script: TurnScript) returns (h: Healed)
    ensures h == Heal(n, prompt, script)
  {
    var attemptPrompt := prompt;
    var attempt := 0;
    var events: seq<Event>, acts: seq<Act> := [], [];
    while true
      invariant attempt <= MAX_TURN_RECOVERIES
      invariant Heal(n, prompt, script) == Before(events, acts, Ladder(n, prompt, script, attempt, attemptPrompt))
      decreases MAX_TURN_RECOVERIES - attempt
    {
      var a := script.attempts(attempt);
      var t := TryOnce(prompt, script.offset, a, attempt, attemptPrompt);
      events, acts, attemptPrompt := events + t.events, acts + t.acts, t.toSend;
      if !t.end.Gave? {
        return Healed(events, acts, t.end);
      }
      if a.stopAfterFailure {
        return Healed(events, acts, StoppedMidTurn);
      }
      if attempt >= MAX_TURN_RECOVERIES || !Recoverable(t.end.failure) {
        return Healed(events, acts, t.end);
      }
      events := events + [Recovery(n, attempt + 1, Clipped(t.end.failure.message))];
      attempt := attempt + 1;
    }
  }
}
