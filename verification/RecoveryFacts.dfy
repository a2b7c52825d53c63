/** What the recovery ladder promises about every sourced prompt, whatever the driver,
    the operator and the transcript do. */
module RecoveryFacts {
  import opened Text
  import opened TextFacts
  import opened RunModel
  import opened Recovery
  import opened LadderFacts

  // ---- how much is done ------------------------------------------------------------

  function CountSends(acts: seq<Act>): nat {
    if acts == [] then 0 else (if acts[0].Send? then 1 else 0) + CountSends(acts[1..])
  }

  lemma {:induction false} CountSendsAppend(a: seq<Act>, b: seq<Act>)
    ensures CountSends(a + b) == CountSends(a) + CountSends(b)
  {
    if a == [] {
      assert a + b == b;
    } else {
      CountSendsAppend(a[1..], b);
      assert (a + b)[1..] == a[1..] + b;
    }
  }

  /** How many attempts ended in a recovery event. */
  function CountRecoveries(events: seq<Event>): nat {
    if events == [] then 0 else (if events[0].Recovery? then 1 else 0) + CountRecoveries(events[1..])
  }

  lemma {:induction false} CountRecoveriesAppend(a: seq<Event>, b: seq<Event>)
    ensures CountRecoveries(a + b) == CountRecoveries(a) + CountRecoveries(b)
  {
    if a == [] {
      assert a + b == b;
    } else {
      CountRecoveriesAppend(a[1..], b);
      assert (a + b)[1..] == a[1..] + b;
    }
  }

  lemma {:induction false} GatesAreNotRecoveries(gates: seq<(string, bool)>)
    ensures CountRecoveries(GateEvents(gates)) == 0
  {
    if gates != [] {
      GatesAreNotRecoveries(gates[1..]);
      CountRecoveriesAppend([Gate(gates[0].0), GateResolved(gates[0].0, gates[0].1)], GateEvents(gates[1..]));
      assert [Gate(gates[0].0), GateResolved(gates[0].0, gates[0].1)][1..] == [GateResolved(gates[0].0, gates[0].1)];
    }
  }

  lemma {:induction false} GateEventKinds(gates: seq<(string, bool)>, e: Event)
    requires e in GateEvents(gates)
    ensures e.Gate? || e.GateResolved?
  {
    if e != Gate(gates[0].0) && e != GateResolved(gates[0].0, gates[0].1) {
      GateEventKinds(gates[1..], e);
    }
  }

  lemma AttemptCounts(n: nat, prompt: string, script: TurnScript, k: nat)
    ensures CountSends(ActsAt(prompt, script, k)) <= 1
    ensures CountRecoveries(MarkAt(n, script, k) + GatesAt(script, k)) <= (if k == 0 then 0 else 1)
  {
    var spawn, send := [Spawn(k)], [Send(k, Due(prompt, script, k))];
    assert spawn[1..] == [] && send[1..] == [];
    CountSendsAppend(spawn, send);
    assert [] + send == send && spawn + [] == spawn;
    var mark := MarkAt(n, script, k);
    assert mark != [] ==> mark[1..] == [];
    GatesAreNotRecoveries(script.attempts(k).turn.gates);
    CountRecoveriesAppend(mark, GatesAt(script, k));
  }

  lemma {:induction false} SendsFrom(prompt: string, script: TurnScript, k: nat)
    requires k <= 3
    ensures CountSends(ActsFrom(prompt, script, k)) <= 3 - k
    decreases 3 - k
  {
    if k <= 2 && Made(script, k) {
      AttemptCounts(0, prompt, script, k);
      SendsFrom(prompt, script, k + 1);
      CountSendsAppend(ActsAt(prompt, script, k), ActsFrom(prompt, script, k + 1));
    }
  }

  lemma {:induction false} RecoveriesFrom(n: nat, script: TurnScript, k: nat)
    requires k <= 3
    ensures CountRecoveries(EventsFrom(n, script, k)) <= if k == 0 then 2 else 3 - k
    decreases 3 - k
  {
    if k <= 2 && Made(script, k) {
      AttemptCounts(n, "", script, k);
      RecoveriesFrom(n, script, k + 1);
      CountRecoveriesAppend(MarkAt(n, script, k) + GatesAt(script, k), EventsFrom(n, script, k + 1));
    }
  }

  /** A sourced prompt costs at most three driver turns and at most two recoveries. */
  lemma AtMostThreeTurns(n: nat, prompt: string, script: TurnScript)
    ensures CountSends(Heal(n, prompt, script).acts) <= 3
    ensures CountRecoveries(Heal(n, prompt, script).events) <= 2
  {
    LadderIsItsAttempts(n, prompt, script);
    SendsFrom(prompt, script, 0);
    RecoveriesFrom(n, script, 0);
  }

  lemma {:induction false} EventKindsFrom(n: nat, script: TurnScript, k: nat, e: Event)
    requires k <= 3 && e in EventsFrom(n, script, k)
    ensures e.Gate? || e.GateResolved? || e.Recovery?
    decreases 3 - k
  {
    if e in GatesAt(script, k) {
      GateEventKinds(script.attempts(k).turn.gates, e);
    } else if e !in MarkAt(n, script, k) {
      EventKindsFrom(n, script, k + 1, e);
    }
  }

  /** A recovering turn reports its gates and its recoveries, and nothing else. */
  lemma HealEventKinds(n: nat, prompt: string, script: TurnScript, e: Event)
    requires e in Heal(n, prompt, script).events
    ensures e.Gate? || e.GateResolved? || e.Recovery?
  {
    LadderIsItsAttempts(n, prompt, script);
    EventKindsFrom(n, script, 0, e);
  }

  // ---- no blind re-execution -------------------------------------------------

  /** Each send carries the prompt itself exactly as long as no attempt so far saw the transcript grow;
      from then on it carries the reconcile form, which differs unless the prompt is a slash command. */
  lemma NeverBlindlyResent(n: nat, prompt: string, script: TurnScript, act: Act)
    requires act in Heal(n, prompt, script).acts && act.Send?
    ensures act.prompt == if GrewBy(script, act.attempt) then Reinjection(prompt) else prompt
    ensures act.prompt == prompt <==> !GrewBy(script, act.attempt) || IsSlashCommand(prompt)
  {
    DoneIffCalledFor(n, prompt, script, act);
    ReinjectionIsNotVerbatim(prompt);
  }

  /** The finished turn reports the sourced prompt, or the reconcile form if growth had it sent. */
  lemma ReportedPrompt(n: nat, prompt: string, script: TurnScript)
    requires Heal(n, prompt, script).outcome.Done?
    ensures var reported := Heal(n, prompt, script).outcome.prompt;
            || reported == prompt
            || (reported == Reinjection(prompt) && exists k: nat :: Send(k, reported) in Heal(n, prompt, script).acts)
  {
    var k := Final(script);
    LadderIsItsAttempts(n, prompt, script);
    DoneIffCalledFor(n, prompt, script, Send(k, Due(prompt, script, k)));
  }

  // ---- what ends the ladder --------------------------------------------------

  /** Attempt `k` must be the last one: the operator stopped it, the reply had already landed,
      or it failed with an error that is never retried. */
  ghost predicate IsLast(script: TurnScript, k: nat, sent: bool) {
    var a := script.attempts(k);
    || a.stopAfterFailure
    || (k >= 1 && a.start == None && Triage(script.offset, a).Landed?)
    || (k >= 1 && a.start == None && Triage(script.offset, a).Interrupted?)
    || (k >= 1 && a.start.Some? && BeyondRetry(a.start.value))
    || (sent && (a.turn.Replies? || BeyondRetry(a.turn.failure)))
  }

  /** Failures that a person or a pause has to cure, and unknown ones. */
  predicate BeyondRetry(f: Failure) {
    f.kind == Auth || f.kind == RateLimit || f.kind == Cwd || f.kind == Other
  }

  /** Nothing is done to the driver after an attempt that must be the last: in particular an auth,
      rate-limit or cwd failure is never retried, and a stopped session is never resurrected. */
  lemma NothingAfterTheLast(n: nat, prompt: string, script: TurnScript, act: Act, other: Act)
    requires act in Heal(n, prompt, script).acts && other in Heal(n, prompt, script).acts
    requires IsLast(script, act.attempt, act.Send?)
    ensures other.attempt <= act.attempt
  {
    DoneIffCalledFor(n, prompt, script, act);
    DoneIffCalledFor(n, prompt, script, other);
    assert !Retried(script, act.attempt);
  }

  lemma SettledAttempt(n: nat, prompt: string, script: TurnScript, k: nat)
    requires Made(script, k) && FailureAt(script, k) == None
    ensures Final(script) == k && Heal(n, prompt, script).outcome == EndAt(prompt, script, k)
  {
    assert !Retried(script, k);
    MadeStep(script, k);
    LadderIsItsAttempts(n, prompt, script);
  }

  /** If a respawn finds the reply already finished, that reply is the turn's result. */
  lemma LandedReplyIsReturned(n: nat, prompt: string, script: TurnScript, k: nat, text: string)
    requires Spawn(k) in Heal(n, prompt, script).acts
    requires script.attempts(k).start == None && Triage(script.offset, script.attempts(k)) == Landed(text)
    ensures Heal(n, prompt, script).outcome == Done(prompt, text)
  {
    DoneIffCalledFor(n, prompt, script, Spawn(k));
    SettledAttempt(n, prompt, script, k);
  }

  /** ... and neither that attempt nor a later one sends anything. */
  lemma LandedReplyIsNotResent(n: nat, prompt: string, script: TurnScript, k: nat, act: Act)
    requires Spawn(k) in Heal(n, prompt, script).acts
    requires script.attempts(k).start == None && Triage(script.offset, script.attempts(k)).Landed?
    requires act in Heal(n, prompt, script).acts && act.Send?
    ensures act.attempt < k
  {
    DoneIffCalledFor(n, prompt, script, Spawn(k));
    DoneIffCalledFor(n, prompt, script, act);
    LandedIsQuiet(script, k);
  }

  lemma LandedIsQuiet(script: TurnScript, k: nat)
    requires k >= 1 && script.attempts(k).start == None && Triage(script.offset, script.attempts(k)).Landed?
    ensures !SendsAt(script, k) && !Retried(script, k)
  {
  }

  /** A session the operator stopped during the backoff is never respawned. */
  lemma StoppedIsNotResurrected(n: nat, prompt: string, script: TurnScript, k: nat, act: Act)
    requires k >= 1 && script.attempts(k).stopAfterBackoff
    requires act in Heal(n, prompt, script).acts
    ensures act.attempt < k
  {
    DoneIffCalledFor(n, prompt, script, act);
    StoppedIsQuiet(script, k);
  }

  lemma StoppedIsQuiet(script: TurnScript, k: nat)
    requires k >= 1 && script.attempts(k).stopAfterBackoff
    ensures !SendsAt(script, k) && !Retried(script, k)
  {
  }

  // ---- what is retried -------------------------------------------------------------

  /** The respawn did not start, or the prompt was sent and the driver failed. */
  predicate FailedBy(script: TurnScript, act: Act, f: Failure) {
    match act
    case Spawn(k) => script.attempts(k).start == Some(f)
    case Send(k, _) => script.attempts(k).turn.Fails? && script.attempts(k).turn.failure == f
  }

  lemma FailedHere(n: nat, prompt: string, script: TurnScript, act: Act, f: Failure)
    requires act in Heal(n, prompt, script).acts && FailedBy(script, act, f)
    ensures Made(script, act.attempt) && FailureAt(script, act.attempt) == Some(f)
  {
    DoneIffCalledFor(n, prompt, script, act);
  }

  /** The outcome when attempt `k` fails and is the last. */
  lemma FinalFailure(n: nat, prompt: string, script: TurnScript, k: nat, f: Failure)
    requires Made(script, k) && !Made(script, k + 1) && FailureAt(script, k) == Some(f)
    ensures Heal(n, prompt, script).outcome == if script.attempts(k).stopAfterFailure then StoppedMidTurn else Gave(f)
    ensures forall act :: act in Heal(n, prompt, script).acts ==> act.attempt <= k
  {
    LadderIsItsAttempts(n, prompt, script);
    assert Final(script) == k;
    forall act | act in Heal(n, prompt, script).acts
      ensures act.attempt <= k
    {
      DoneIffCalledFor(n, prompt, script, act);
    }
  }

  /** A failure to authenticate, a rate limit, a missing directory or an unknown failure is never retried: nothing more
      is done to the driver, and the turn ends with that failure, or as stopped if the operator had asked for it. */
  lemma NeverRetried(n: nat, prompt: string, script: TurnScript, act: Act, f: Failure)
    requires act in Heal(n, prompt, script).acts && FailedBy(script, act, f)
    requires f.kind == Auth || f.kind == RateLimit || f.kind == Cwd || f.kind == Other
    ensures forall other :: other in Heal(n, prompt, script).acts ==> other.attempt <= act.attempt
    ensures Heal(n, prompt, script).outcome
            == if script.attempts(act.attempt).stopAfterFailure then StoppedMidTurn else Gave(f)
  {
    FailedHere(n, prompt, script, act, f);
    assert !Retried(script, act.attempt);
    FinalFailure(n, prompt, script, act.attempt, f);
  }

  /** A timeout or a lost process is retried twice, unless the operator asked to stop: the recovery is announced with
      the failure, and the driver is respawned, unless the operator stops it in the backoff before that. */
  lemma RetriedTwice(n: nat, prompt: string, script: TurnScript, act: Act, f: Failure)
    requires act in Heal(n, prompt, script).acts && FailedBy(script, act, f)
    requires f.kind == Timeout || f.kind == ClaudeExited || f.kind == NotRunning
    requires !script.attempts(act.attempt).stopAfterFailure
    ensures var k, h := act.attempt + 1, Heal(n, prompt, script);
            if k > 2 then h.outcome == Gave(f)
            else
              && Recovery(n, k, Clipped(f.message)) in h.events
              && (if script.attempts(k).stopAfterBackoff then h.outcome == StoppedMidTurn else Spawn(k) in h.acts)
  {
    FailedHere(n, prompt, script, act, f);
    var k := act.attempt + 1;
    if k > 2 {
      FinalFailure(n, prompt, script, act.attempt, f);
    } else {
      assert Retried(script, act.attempt);
      NextAttempt(n, prompt, script, k, f);
    }
  }

  lemma NextAttempt(n: nat, prompt: string, script: TurnScript, k: nat, f: Failure)
    requires 1 <= k && Made(script, k) && FailureAt(script, k - 1) == Some(f)
    ensures Recovery(n, k, Clipped(f.message)) in Heal(n, prompt, script).events
    ensures if script.attempts(k).stopAfterBackoff then Heal(n, prompt, script).outcome == StoppedMidTurn
            else Spawn(k) in Heal(n, prompt, script).acts
  {
    LadderIsItsAttempts(n, prompt, script);
    Announced(n, script, 0, k);
    assert Recovery(n, k, Clipped(f.message)) in MarkAt(n, script, k);
    if script.attempts(k).stopAfterBackoff {
      StoppedEnd(prompt, script, k);
    } else {
      DoneIffCalledFor(n, prompt, script, Spawn(k));
    }
  }

  lemma StoppedEnd(prompt: string, script: TurnScript, k: nat)
    requires 1 <= k && Made(script, k) && script.attempts(k).stopAfterBackoff
    ensures EndAt(prompt, script, Final(script)) == StoppedMidTurn
  {
    assert !Up(script, k);
    assert FailureAt(script, k) == None;
    MadeStep(script, k);
    assert !Retried(script, k);
    assert Final(script) == k;
  }

  lemma {:induction false} Announced(n: nat, script: TurnScript, k: nat, j: nat)
    requires k <= j && Made(script, j) && j <= 2
    ensures forall e :: e in MarkAt(n, script, j) ==> e in EventsFrom(n, script, k)
    decreases 3 - k
  {
    assert Made(script, k);
    if k < j {
      Announced(n, script, k + 1, j);
    }
  }

  /** A recovery quotes the first two hundred characters of the failure. */
  lemma ClipsToTwoHundred(message: string)
    ensures Clipped(message) <= message
    ensures |Clipped(message)| == if |message| < 200 then |message| else 200
  {
  }

  /** A turn reports each gate it went through, in order, with its answer right behind it. */
  lemma {:induction false} GatesInOrder(gates: seq<(string, bool)>, i: nat)
    requires i < |gates|
    ensures var events := GateEvents(gates);
            && |events| == 2 * |gates|
            && events[2 * i] == Gate(gates[i].0) && events[2 * i + 1] == GateResolved(gates[i].0, gates[i].1)
    decreases |gates|
  {
    var events, rest := GateEvents(gates), GateEvents(gates[1..]);
    assert events == [Gate(gates[0].0), GateResolved(gates[0].0, gates[0].1)] + rest;
    if i > 0 {
      GatesInOrder(gates[1..], i - 1);
    } else if |gates| > 1 {
      GatesInOrder(gates[1..], 0);
    }
  }

  /** A slash command is a prompt whose first character that is no white space is a slash. */
  lemma SlashCommandIff(p: string)
    ensures IsSlashCommand(p) <==> exists i :: 0 <= i < |p| && p[i] == '/' && forall j :: 0 <= j < i ==> IsSpace(p[j])
  {
    var i, j := TrimIsTheMiddle(p);
    if IsSlashCommand(p) {
      assert Trim(p)[0] == '/' && p[i] == '/';
    }
    if k :| 0 <= k < |p| && p[k] == '/' && forall m :: 0 <= m < k ==> IsSpace(p[m]) {
      assert !IsSpace('/');
      assert !(j <= k) && k == i < j;
      assert Trim(p)[0] == '/';
    }
  }

  /** What a respawn makes of the transcript: no growth, no effect; a turn that ended with a reply has landed; otherwise
      it is waited for, with two minutes of quiet to go. */
  lemma TriageReads(offset: nat, a: Attempt)
    ensures Triage(offset, a) == Untouched <==> !(a.size.Some? && a.size.value > offset)
    ensures a.size.Some? && a.size.value > offset && a.ended && a.landed.Some? ==>
              Triage(offset, a) == Landed(a.landed.value)
    ensures a.size.Some? && a.size.value > offset && !(a.ended && a.landed.Some?) ==>
              Triage(offset, a) == Grace(a.grace, 0, 0, 120_000, a.size.value).verdict
  {
  }

  // ---- the wait for a reply ----------------------------------------------------------

  /** The transcript's size as known before poll `k`. */
  function SeenAt(polls: nat -> GracePoll, i: nat, k: nat, size: nat): nat
    decreases k as int - i as int
  {
    if i >= k then size
    else SeenAt(polls, i + 1, k, if polls(i).size.Some? then polls(i).size.value else size)
  }

  ghost predicate Grows(polls: nat -> GracePoll, i: nat, k: nat, size: nat) {
    polls(k).size.Some? && polls(k).size.value != SeenAt(polls, i, k, size)
  }

  /** A poll settles the wait if the operator has stopped, or if the turn has ended and the transcript is at rest. */
  ghost predicate Settling(polls: nat -> GracePoll, i: nat, k: nat, size: nat) {
    polls(k).stop || (polls(k).ended && !Grows(polls, i, k, size))
  }

  /** The wait takes the first settling poll's word for it; without one it ends in a reconcile. */
  lemma {:induction false} GraceTakesTheFirst(polls: nat -> GracePoll, i: nat, now: int, until: int, size: nat, k: nat)
    requires var w := Grace(polls, i, now, until, size); i <= k < w.polls
    ensures var w := Grace(polls, i, now, until, size);
            Settling(polls, i, k, size) ==>
              && w.polls == k + 1
              && w.verdict == if polls(k).stop then Interrupted
                              else if polls(k).landed.Some? then Landed(polls(k).landed.value) else Reconcile
    decreases GRACE_CAP_MS - now
  {
    var p := polls(i);
    var woke := now + GRACE_STEP_MS + p.late;
    if k > i && now < until && now < GRACE_CAP_MS && !p.stop {
      if p.size.Some? && p.size.value != size {
        GraceTakesTheFirst(polls, i + 1, woke, woke + GRACE_QUIET_MS, p.size.value, k);
      } else if !p.ended {
        GraceTakesTheFirst(polls, i + 1, woke + p.reading, until, size, k);
      }
    }
  }

  lemma {:induction false} GraceIsSettled(polls: nat -> GracePoll, i: nat, now: int, until: int, size: nat)
    ensures var w := Grace(polls, i, now, until, size);
            w.verdict != Reconcile ==> w.polls > i && Settling(polls, i, w.polls - 1, size)
    decreases GRACE_CAP_MS - now
  {
    var p := polls(i);
    var woke := now + GRACE_STEP_MS + p.late;
    if now < until && now < GRACE_CAP_MS && !p.stop {
      if p.size.Some? && p.size.value != size {
        GraceIsSettled(polls, i + 1, woke, woke + GRACE_QUIET_MS, p.size.value);
      } else if !p.ended {
        GraceIsSettled(polls, i + 1, woke + p.reading, until, size);
      }
    }
  }

  /** No poll is made after two minutes without growth: each comes before the first window closes, or within two minutes
      of a poll that saw the transcript grow. */
  lemma {:induction false} QuietEndsTheWait(polls: nat -> GracePoll, i: nat, now: int, until: int, size: nat, k: nat)
    requires var w := Grace(polls, i, now, until, size); i <= k < w.polls
    ensures now + QuietTime(polls, i, k) < until
            || exists j :: i <= j < k && Grows(polls, i, j, size) && QuietTime(polls, j + 1, k) < 120_000
    decreases GRACE_CAP_MS - now
  {
    var p := polls(i);
    var woke := now + GRACE_STEP_MS + p.late;
    if k > i && !p.stop {
      if p.size.Some? && p.size.value != size {
        QuietEndsTheWait(polls, i + 1, woke, woke + GRACE_QUIET_MS, p.size.value, k);
        if woke + QuietTime(polls, i + 1, k) < woke + GRACE_QUIET_MS {
          assert Grows(polls, i, i, size);
        } else {
          var j :| i + 1 <= j < k && Grows(polls, i + 1, j, p.size.value) && QuietTime(polls, j + 1, k) < 120_000;
          assert Grows(polls, i, j, size);
        }
      } else if !p.ended {
        QuietEndsTheWait(polls, i + 1, woke + p.reading, until, size, k);
        if now + QuietTime(polls, i, k) >= until {
          var j :| i + 1 <= j < k && Grows(polls, i + 1, j, size) && QuietTime(polls, j + 1, k) < 120_000;
          assert Grows(polls, i, j, size);
        }
      }
    }
  }
}
