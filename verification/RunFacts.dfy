/** Whole runs: where every turn comes from, why a run ends, and that what the brain and the human decide is done. */
module RunFacts {
  import opened Text
  import opened GuardPolicy
  import opened RunModel
  import opened Recovery
  import opened Orchestrator
  import opened TraceShape
  import opened PassFacts

  // ---- every turn has its pass -----------------------------------------------------

  /** The run when only the first `k` passes' answers are there. */
  function Cut(w: World, k: nat): World
    requires k <= |w.ticks|
  {
    w.(ticks := w.ticks[..k])
  }

  lemma {:induction false} LoopSnoc(s: Setup, ticks: seq<Tick>, t: Tick, r: Run)
    ensures var f := Loop(s, ticks, r);
            Loop(s, ticks + [t], r) == if f.Live? then Pass(s, t, f.run) else f
  {
    if ticks == [] {
      assert [t][0] == t && [t][1..] == [] && ticks + [t] == [t];
    } else {
      assert (ticks + [t])[0] == ticks[0] && (ticks + [t])[1..] == ticks[1..] + [t];
      var f := Pass(s, ticks[0], r);
      if f.Live? { LoopSnoc(s, ticks[1..], t, f.run); }
    }
  }

  /** A run is its passes, one after the other, until one ends it. */
  lemma RunSnoc(s: Setup, w: World, k: nat)
    requires k < |w.ticks|
    ensures var f := SessionRun(s, Cut(w, k));
            SessionRun(s, Cut(w, k + 1)) == if f.Live? then Pass(s, w.ticks[k], f.run) else f
  {
    assert w.ticks[..k + 1] == w.ticks[..k] + [w.ticks[k]];
    var f := CheckUsage(Run(FreshCore(s.goal), [], None), w.firstUsage);
    if w.boot == None && f.Live? {
      LoopSnoc(s, w.ticks[..k], w.ticks[k], f.run);
    }
  }

  /** The state between two passes keeps the invariant. */
  lemma LiveInv(s: Setup, w: World)
    requires SessionRun(s, w).Live?
    ensures Inv(s.limits, SessionRun(s, w).run)
  {
    var start := Run(FreshCore(s.goal), [], None);
    FreshInv(s);
    UsageKeeps(s.limits, start, w.firstUsage);
    LoopKeeps(s, w.ticks, CheckUsage(start, w.firstUsage).run);
  }

  /** The pass was called on to run this prompt when a turn was left, the clock had not run out, and the prompt did not
      complete a row that says the same. */
  ghost predicate InOrder(s: Setup, t: Tick, r: Run, p: string) {
    && Calls(s, t, r, p)
    && |r.ran| + 1 <= s.limits.maxTurns
    && t.elapsedMs <= s.limits.maxWallClockMin * 60_000
    && s.limits.pingPongThreshold >= 1 && !RepeatsWith(s.limits, Sourceds(r.ran), p)
  }

  /** The prompt was called for, in order, the driver finished it, and it is now the last one run. */
  ghost predicate RunsAs(s: Setup, t: Tick, r: Run, p: string, ran: seq<Ran>) {
    var h := Heal(|r.ran| + 1, p, t.turn);
    InOrder(s, t, r, p) && h.outcome.Done? && ran == r.ran + [Ran(p, h.outcome.prompt)]
  }

  ghost predicate RunsOne(s: Setup, t: Tick, r: Run, ran: seq<Ran>) {
    exists p :: RunsAs(s, t, r, p, ran)
  }

  /** Nothing was added, and no prompt was called for in order that the driver would have finished. */
  ghost predicate RunsNone(s: Setup, t: Tick, r: Run, ran: seq<Ran>) {
    ran == r.ran && forall p :: InOrder(s, t, r, p) ==> !Heal(|r.ran| + 1, p, t.turn).outcome.Done?
  }

  /** Each pass runs one turn or none. It runs one exactly when a prompt is called for, in order, and the driver
      finishes it: in particular no turn comes from a pass after the wall-clock cap. */
  lemma EveryTurnHasItsPass(s: Setup, w: World, k: nat)
    requires k < |w.ticks|
    ensures var f, g := SessionRun(s, Cut(w, k)), SessionRun(s, Cut(w, k + 1));
            if f.Live? then RunsNone(s, w.ticks[k], f.run, g.run.ran) || RunsOne(s, w.ticks[k], f.run, g.run.ran)
            else g.run.ran == f.run.ran
  {
    RunSnoc(s, w, k);
    var f := SessionRun(s, Cut(w, k));
    if f.Live? {
      LiveInv(s, Cut(w, k));
      PassRuns(s, w.ticks[k], f.run);
    }
  }

  lemma PassRuns(s: Setup, t: Tick, r: Run)
    requires Inv(s.limits, r)
    ensures RunsNone(s, t, r, Pass(s, t, r).run.ran) || RunsOne(s, t, r, Pass(s, t, r).run.ran)
  {
    if p :| Calls(s, t, r, p) {
      OnlyOneIsCalled(s, t, r, p);
      CalledRuns(s, t, r, p);
      assert RunsAs(s, t, r, p, Pass(s, t, r).run.ran) || Pass(s, t, r).run.ran == r.ran;
    } else {
      NothingElseRuns(s, t, r);
    }
  }

  lemma OnlyOneIsCalled(s: Setup, t: Tick, r: Run, p: string)
    requires Calls(s, t, r, p)
    ensures forall q :: Calls(s, t, r, q) ==> q == p
  {
    CalledIsSourced(s, t, r, p);
    forall q | Calls(s, t, r, q)
      ensures q == p
    {
      CalledIsSourced(s, t, r, q);
    }
  }

  lemma CalledRuns(s: Setup, t: Tick, r: Run, p: string)
    requires Inv(s.limits, r) && Calls(s, t, r, p)
    ensures var h := Heal(|r.ran| + 1, p, t.turn);
            Pass(s, t, r).run.ran == if InOrder(s, t, r, p) && h.outcome.Done? then r.ran + [Ran(p, h.outcome.prompt)]
                                     else r.ran
  {
    assert |Sourceds(r.ran)| == |r.ran|;
    CheckPassesIff(s.limits, r.core.guards, Sourceds(r.ran), p, t.elapsedMs);
    if !InOrder(s, t, r, p) {
      RefusedPromptEndsTheRun(s, t, r, p);
    } else if Heal(|r.ran| + 1, p, t.turn).outcome.Done? {
      var before := FinishedPromptIsATurn(s, t, r, p);
    } else {
      var before := BrokenPromptEndsTheRun(s, t, r, p);
    }
  }

  // ---- the seed prompt comes first ---------------------------------------------------

  /** The seed prompt is still to be delivered, or was the first prompt run. */
  ghost predicate SeedFirst(s: Setup, r: Run) {
    s.seedPrompt != "" ==>
      if r.ran == [] then !r.core.seeded else r.core.seeded && r.ran[0].sourced == s.seedPrompt
  }

  lemma SourceKeepsSeeded(s: Setup, t: Tick, r: Run)
    requires s.seedPrompt != "" && r.core.seeded
    ensures Source(s, t, r).core.seeded
  {
  }

  lemma SettleKeepsSeeded(s: Setup, t: Tick, r: Run)
    ensures Settle(s, t, r).run.core.seeded == r.core.seeded && Settle(s, t, r).run.ran == r.ran
  {
    CompactKeepsSeeded(s, r, t.context);
  }

  lemma CompactKeepsSeeded(s: Setup, r: Run, context: ContextAnswer)
    ensures var f := CompactContext(s, r, context); f.run.core.seeded == r.core.seeded && f.run.ran == r.ran
  {
    match context {
      case Compact(save, compact, resume) =>
        var saved := Maintain(r.(core := Emit(r.core, [Compaction(false)])), s.savePrompt, save).run;
        assert saved.core.seeded == r.core.seeded && saved.ran == r.ran;
      case _ =>
    }
  }

  lemma ExecuteSeedsFirst(s: Setup, t: Tick, r: Run, p: string)
    requires r.core.seeded && (if r.ran == [] then p == s.seedPrompt else r.ran[0].sourced == s.seedPrompt)
    ensures var f := Execute(s, t, r, p);
            if f.Live? then SeedFirst(s, f.run) else f.run.ran == r.ran
  {
  }

  /** A pass that goes on keeps it; one that ends the run has run no other prompt first. */
  lemma PassSeedsFirst(s: Setup, t: Tick, r: Run)
    requires SeedFirst(s, r) && s.seedPrompt != ""
    ensures var f := Pass(s, t, r);
            if f.Live? then SeedFirst(s, f.run) else f.run.ran != [] ==> f.run.ran[0].sourced == s.seedPrompt
  {
    if t.stop == None {
      if r.core.seeded { SourceKeepsSeeded(s, t, r); }
      var x := Source(s, t, r);
      if x.Prompt? {
        var q := r.(core := x.core);
        ExecuteSeedsFirst(s, t, q, x.text);
        SettleKeepsSeeded(s, t, Execute(s, t, q, x.text).run);
        PassExecutes(s, t, r);
      }
    }
  }

  lemma {:induction false} LoopSeedsFirst(s: Setup, ticks: seq<Tick>, r: Run)
    requires SeedFirst(s, r) && s.seedPrompt != ""
    ensures var f := Loop(s, ticks, r); f.run.ran != [] ==> f.run.ran[0].sourced == s.seedPrompt
  {
    if ticks != [] {
      PassSeedsFirst(s, ticks[0], r);
      var f := Pass(s, ticks[0], r);
      if f.Live? { LoopSeedsFirst(s, ticks[1..], f.run); }
    }
  }

  /** A run that is given a prompt to begin with runs no other first, whatever mode it is in and whatever it is told. */
  lemma SeedPromptComesFirst(s: Setup, w: World)
    requires s.seedPrompt != "" && SessionRun(s, w).run.ran != []
    ensures SessionRun(s, w).run.ran[0].sourced == s.seedPrompt
  {
    var f := CheckUsage(Run(FreshCore(s.goal), [], None), w.firstUsage);
    if w.boot == None && f.Live? { LoopSeedsFirst(s, w.ticks, f.run); }
  }

  // ---- every end has its cause -----------------------------------------------------

  lemma LastTwo(trace: seq<Event>) returns (k: nat)
    requires Finished(trace)
    ensures 1 <= k < |trace| <= k + 2 && Ending(trace[k..])
    ensures forall i :: 0 < i < k ==> Inner(trace[i])
    ensures trace[0].Start?
  {
    k :| 0 <= k <= |trace| && InProgress(trace[..k]) && Ending(trace[k..]);
    assert trace[..k][0] == trace[0];
    forall i | 0 < i < k
      ensures Inner(trace[i])
    {
      InProgressEvents(trace[..k], i);
    }
  }

  /** A final stop is by the guard or the operator, or the event before it says why: a spent limit or a rate limit, with
      its text; the brain's decision to stop, with its reason; the human's; or a model that stayed unreachable. */
  lemma EveryStopHasItsCause(s: Setup, w: World)
    requires SessionRun(s, w).Over?
    ensures var trace := SessionRun(s, w).run.core.trace;
            var n := |trace|;
            && n >= 2
            && match trace[n - 1]
               case Stop(Said(text), _) =>
                 || trace[n - 2] == LimitSpent(text) || trace[n - 2] == RateLimited(text)
                 || (trace[n - 2].Decided? && trace[n - 2].decision == Finish(text))
               case Stop(HumanSaidStop, _) =>
                 trace[n - 2].AttentionResolved? && trace[n - 2].resolution == ChooseStop
               case Stop(ModelUnreachable, _) => trace[n - 2] == Brain(false)
               case Stop(_, _) => true
               case Error(_) => true
               case _ => false
  {
    EveryRunIsWellFormed(s, w);
    var trace := SessionRun(s, w).run.core.trace;
    var k := LastTwo(trace);
    var tail := trace[k..];
    assert tail[|tail| - 1] == trace[|trace| - 1] && tail[0] == trace[k];
  }

  /** The events that end a run, and the stop each of them calls for. */
  function CallsForStop(e: Event): Option<Reason> {
    match e
    case LimitSpent(reason) => Some(Said(reason))
    case RateLimited(detail) => Some(Said(detail))
    case Decided(_, Finish(reason)) => Some(Said(reason))
    case AttentionResolved(_, ChooseStop) => Some(HumanSaidStop)
    case _ => None
  }

  /** A spent limit, a rate limit, a decision to stop and a human's stop are each followed at once by the stop that says
      so, and by nothing else. */
  lemma CauseThenStop(s: Setup, w: World, i: nat)
    requires i < |SessionRun(s, w).run.core.trace| && CallsForStop(SessionRun(s, w).run.core.trace[i]).Some?
    ensures var f := SessionRun(s, w);
            var trace := f.run.core.trace;
            && f.Over? && i + 2 == |trace|
            && trace[i + 1].Stop? && Some(trace[i + 1].why) == CallsForStop(trace[i])
  {
    EveryRunIsWellFormed(s, w);
    var f := SessionRun(s, w);
    var trace := f.run.core.trace;
    if f.Over? {
      CauseInTrace(trace, i);
    } else {
      InProgressEvents(trace, i);
    }
  }

  lemma CauseInTrace(trace: seq<Event>, i: nat)
    requires Finished(trace) && i < |trace| && CallsForStop(trace[i]).Some?
    ensures i + 2 == |trace| && trace[i + 1].Stop? && Some(trace[i + 1].why) == CallsForStop(trace[i])
  {
    var k := LastTwo(trace);
    var tail := trace[k..];
    assert tail[0] == trace[k] && (|tail| == 2 ==> tail[1] == trace[k + 1]);
    assert i == k;
  }

  // ---- decisions are done ------------------------------------------------------------

  /** The prompt of a decision to continue, and the prompt of an option the human chose, are the very prompt the next
      turn was sourced from, if there is a next turn; and an answer comes right after the request it answers. */
  lemma DecisionsAreDone(s: Setup, w: World, i: nat)
    requires i < |SessionRun(s, w).run.core.trace|
    ensures var r := SessionRun(s, w).run;
            var n := |TurnsOf(r.core.trace[..i])|;
            match r.core.trace[i]
            case Decided(m, d) => m == n && (d.Continue? && n < |r.ran| ==> r.ran[n].sourced == d.prompt)
            case AttentionResolved(q, x) =>
              && q.turn == n && (x.Choose? && n < |r.ran| ==> r.ran[n].sourced == x.prompt)
              && i > 0 && r.core.trace[i - 1] == Attention(n, q)
            case _ => true
  {
    EveryRunIsWellFormed(s, w);
    var r := SessionRun(s, w).run;
    if Steers(r.core.trace[i]) { assert Followed(r, i); }
  }
}
