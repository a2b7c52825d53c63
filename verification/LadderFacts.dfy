/** What the recovery ladder does, attempt by attempt, read off the answers it gets: which attempts are made, what each
    does to the driver and reports, and how the last one ends. */
module LadderFacts {
  import opened Text
  import opened RunModel
  import opened Recovery

  /** Attempt `k` came back up and found the transcript longer than before the turn. */
  predicate Grew(script: TurnScript, k: nat) {
    var a := script.attempts(k);
    !a.stopAfterBackoff && a.start == None && a.size.Some? && a.size.value > script.offset
  }

  ghost predicate GrewBy(script: TurnScript, k: int) {
    exists j :: 1 <= j <= k && Grew(script, j)
  }

  /** What attempt `k` may send: the prompt itself, or its reconcile form once growth was seen. */
  ghost function Due(prompt: string, script: TurnScript, k: int): string {
    if GrewBy(script, k) then Reinjection(prompt) else prompt
  }

  lemma DueStep(prompt: string, script: TurnScript, k: nat)
    ensures Due(prompt, script, k)
            == if k >= 1 && Grew(script, k) then Reinjection(prompt) else Due(prompt, script, k - 1)
  {
  }

  /** The next attempt runs: this one failed, nobody stopped the run, and the failure may be retried. */
  predicate GoesOn(script: TurnScript, attempt: nat, t: Tried) {
    t.end.Gave? && !script.attempts(attempt).stopAfterFailure && attempt < MAX_TURN_RECOVERIES
      && Recoverable(t.end.failure)
  }

  // ---- one attempt, from its answers ---------------------------------------------

  /** The attempt comes back up: the first one is up already, a later one must not be stopped and must start. */
  predicate Up(script: TurnScript, k: nat) {
    k == 0 || (!script.attempts(k).stopAfterBackoff && script.attempts(k).start == None)
  }

  /** It gets as far as sending the prompt: no reply has landed and nobody stops the wait for one. */
  predicate SendsAt(script: TurnScript, k: nat) {
    Up(script, k) && (k == 0 || Triage(script.offset, script.attempts(k)) in {Untouched, Reconcile})
  }

  /** The failure it ends with, if it fails. */
  function FailureAt(script: TurnScript, k: nat): Option<Failure> {
    var a := script.attempts(k);
    if k >= 1 && !a.stopAfterBackoff && a.start.Some? then a.start
    else if SendsAt(script, k) && a.turn.Fails? then Some(a.turn.failure)
    else None
  }

  /** Attempt `k` is made: it is one of the first three, and each one before it failed in a way that a respawn can cure
      while nobody asked to stop. */
  predicate Made(script: TurnScript, k: nat) {
    k <= 2 && forall j :: 0 <= j < k ==> Retried(script, j)
  }

  predicate Retried(script: TurnScript, k: nat) {
    var f := FailureAt(script, k);
    f.Some? && (f.value.kind == Timeout || f.value.kind == ClaudeExited || f.value.kind == NotRunning)
      && !script.attempts(k).stopAfterFailure
  }

  ghost function ActsAt(prompt: string, script: TurnScript, k: nat): seq<Act> {
    (if k >= 1 && !script.attempts(k).stopAfterBackoff then [Spawn(k)] else [])
    + if SendsAt(script, k) then [Send(k, Due(prompt, script, k))] else []
  }

  function GatesAt(script: TurnScript, k: nat): seq<Event> {
    if SendsAt(script, k) then GateEvents(script.attempts(k).turn.gates) else []
  }

  /** The recovery announced before attempt `k`. */
  function MarkAt(n: nat, script: TurnScript, k: nat): seq<Event> {
    if k >= 1 && FailureAt(script, k - 1).Some? then [Recovery(n, k, Clipped(FailureAt(script, k - 1).value.message))]
    else []
  }

  /** How the turn ends if attempt `k` is the last. */
  ghost function EndAt(prompt: string, script: TurnScript, k: nat): Outcome {
    var a := script.attempts(k);
    if FailureAt(script, k).Some? then if a.stopAfterFailure then StoppedMidTurn else Gave(FailureAt(script, k).value)
    else if SendsAt(script, k) then Done(Due(prompt, script, k), a.turn.text)
    else if Up(script, k) && Triage(script.offset, a).Landed? then Done(prompt, Triage(script.offset, a).text)
    else StoppedMidTurn
  }

  // ---- the ladder is its attempts ------------------------------------------------

  lemma AttemptIs(prompt: string, script: TurnScript, k: nat, toSend: string)
    requires toSend == Due(prompt, script, k - 1)
    ensures var a := script.attempts(k);
            var t := TryAttempt(prompt, script.offset, a, k, toSend);
            && t.acts == ActsAt(prompt, script, k) && t.events == GatesAt(script, k)
            && (if FailureAt(script, k).Some? then t.end == Gave(FailureAt(script, k).value)
                else t.end == EndAt(prompt, script, k))
            && (GoesOn(script, k, t) ==> t.toSend == Due(prompt, script, k))
  {
    DueStep(prompt, script, k);
  }

  ghost function ActsFrom(prompt: string, script: TurnScript, k: nat): seq<Act>
    decreases 3 - k
  {
    if k > 2 || !Made(script, k) then [] else ActsAt(prompt, script, k) + ActsFrom(prompt, script, k + 1)
  }

  function EventsFrom(n: nat, script: TurnScript, k: nat): seq<Event>
    decreases 3 - k
  {
    if k > 2 || !Made(script, k) then [] else MarkAt(n, script, k) + GatesAt(script, k) + EventsFrom(n, script, k + 1)
  }

  /** The last attempt made. */
  function Final(script: TurnScript): (k: nat)
    ensures k <= 2 && Made(script, k) && !Made(script, k + 1)
  {
    if Made(script, 2) then 2 else if Made(script, 1) then 1 else 0
  }

  lemma MadeStep(script: TurnScript, k: nat)
    requires Made(script, k)
    ensures Made(script, k + 1) <==> k < 2 && Retried(script, k)
  {
  }

  lemma {:induction false} LadderFrom(n: nat, prompt: string, script: TurnScript, k: nat, toSend: string)
    requires k <= MAX_TURN_RECOVERIES && Made(script, k) && toSend == Due(prompt, script, k - 1)
    ensures var h := Ladder(n, prompt, script, k, toSend);
            && h.acts == ActsFrom(prompt, script, k)
            && MarkAt(n, script, k) + h.events == EventsFrom(n, script, k)
            && h.outcome == EndAt(prompt, script, Final(script))
    decreases MAX_TURN_RECOVERIES - k
  {
    var t := TryAttempt(prompt, script.offset, script.attempts(k), k, toSend);
    AttemptIs(prompt, script, k, toSend);
    MadeStep(script, k);
    assert GoesOn(script, k, t) <==> Made(script, k + 1);
    if Made(script, k + 1) {
      LadderFrom(n, prompt, script, k + 1, t.toSend);
      var h := Ladder(n, prompt, script, k + 1, t.toSend);
      assert Ladder(n, prompt, script, k, toSend).events == GatesAt(script, k) + MarkAt(n, script, k + 1) + h.events;
      Shift(MarkAt(n, script, k), GatesAt(script, k), MarkAt(n, script, k + 1), h.events);
    } else {
      assert Final(script) == k;
    }
  }

  lemma Shift(a: seq<Event>, b: seq<Event>, c: seq<Event>, d: seq<Event>)
    ensures a + (b + c + d) == a + b + (c + d)
  {
  }

  /** The ladder makes the attempts that the answers call for, in order and no others: each respawns and sends as its
      answers say, is announced with the failure before it, and the last one made decides how the turn ends. */
  lemma LadderIsItsAttempts(n: nat, prompt: string, script: TurnScript)
    ensures var h := Heal(n, prompt, script);
            && h.acts == ActsFrom(prompt, script, 0)
            && h.events == EventsFrom(n, script, 0)
            && h.outcome == EndAt(prompt, script, Final(script))
  {
    LadderFrom(n, prompt, script, 0, prompt);
  }

  lemma {:induction false} ActsUnfold(prompt: string, script: TurnScript, k: nat, act: Act)
    requires k <= 3
    ensures act in ActsFrom(prompt, script, k) <==>
            k <= act.attempt && Made(script, act.attempt) && act in ActsAt(prompt, script, act.attempt)
    decreases 3 - k
  {
    assert forall x :: x in ActsAt(prompt, script, k) ==> x.attempt == k;
    if k <= 2 && Made(script, k) {
      ActsUnfold(prompt, script, k + 1, act);
    }
  }

  /** What is done to the driver is what the attempts made call for. */
  lemma DoneIffCalledFor(n: nat, prompt: string, script: TurnScript, act: Act)
    ensures act in Heal(n, prompt, script).acts <==>
            Made(script, act.attempt) && act in ActsAt(prompt, script, act.attempt)
  {
    LadderIsItsAttempts(n, prompt, script);
    ActsUnfold(prompt, script, 0, act);
  }
}
