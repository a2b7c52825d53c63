/** The variables and helper closures that both run functions declare, as an object. */
module LoopState {
  import opened Text
  import opened GuardPolicy
  import opened RunModel

  class LoopState {
    const limits: Limits
    const guards: Guards
    const stuck: StuckDetector
    var trace: seq<Event>
    var seeded: bool
    var asked: seq<Query>
    var stalls: nat

    constructor (goal: string, limits: Limits)
      ensures this.limits == limits && guards.limits == limits
      ensures fresh(guards) && fresh(stuck)
      ensures View() == FreshCore(goal)
    {
      this.limits := limits;
      guards := new Guards(limits);
      stuck := new StuckDetector();
      trace := [Start(goal)];
      seeded, asked, stalls := false, [], 0;
    }

    function View(): Core
      reads this, guards, stuck
    {
      Core(trace, guards.State(), stuck.State(), seeded, asked, stalls)
    }

    method Emits(events: seq<Event>)
      modifies this`trace
      ensures trace == old(trace) + events
    {
      trace := trace + events;
    }

    method Stops(why: Reason)
      modifies this`trace
      ensures View() == StopRun(old(View()), why)
    {
      Emits([Stop(why, guards.turns)]);
    }

    /** Pause until the local model is healthy again or the operator stops the run. */
    method WaitsForBrain(polls: seq<Poll>) returns (r: Sourced)
      modifies this`trace
      ensures r == WaitForBrain(old(View()), polls) && View() == r.core
    {
      Emits([Brain(false)]);
      var k := 0;
      while k < |polls|
        invariant 0 <= k <= |polls|
        invariant PollBrain(polls) == PollBrain(polls[k..])
        invariant trace == old(trace) + [Brain(false)]
      {
        if polls[k].stopBefore || polls[k].stopAfter {
          Stops(ModelUnreachable);
          return Closed(View());
        }
        if polls[k].healthy {
          Emits([Brain(true)]);
          return Reloop(View());
        }
        k := k + 1;
      }
      return Waiting(View());
    }

    /** Surface an escalation and wait for the human. */
    method AsksHuman(d: Decision, t: Tick) returns (r: Sourced)
      requires d.Escalate?
      modifies this`trace
      ensures r == Resolve(old(View()), old(guards.turns), d, t) && View() == r.core
    {
      var question := if d.question.Some? then d.question.value else d.reason;
      var request := Request(t.requestId, guards.turns, question, d.options);
      Emits([Attention(guards.turns, request)]);
      match t.resolution {
        case Throws(f) =>
          return Failed(View(), f);
        case Ok(resolution) =>
          Emits([AttentionResolved(request, resolution)]);
          if resolution.ChooseStop? {
            Stops(HumanSaidStop);
            return Closed(View());
          }
          return Prompt(View(), resolution.prompt);
      }
    }

    /** Ask the brain for the next step and act on its decision. */
    method AsksBrain(rationale: string, lastText: string, t: Tick) returns (r: Sourced)
      modifies this, stuck
      ensures r == AskBrain(rationale, limits.stuckTurns, old(View()), lastText, t) && View() == r.core
    {
      asked := asked + [Query(lastText, guards.turns)];
      match t.brain {
        case Unreachable =>
          r := WaitsForBrain(t.polls);
        case BrainThrows(f) =>
          r := Failed(View(), f);
        case Decides(d0) =>
          var decision := d0;
          if decision.Continue? && IsStuck(stuck.State(), limits.stuckTurns) {
            decision := StallEscalation(rationale, decision.prompt, stuck.noChange);
            stuck.Reset();
            stalls := stalls + 1;
          }
          Emits([Decided(guards.turns, decision)]);
          match decision {
            case Finish(reason) =>
              Stops(Said(reason));
              r := Closed(View());
            case Continue(prompt, _) =>
              r := Prompt(View(), prompt);
            case Escalate(_, _, _) =>
              r := AsksHuman(decision, t);
          }
      }
    }
  }
}
