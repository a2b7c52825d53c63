/** Rule lists whose plans are the cascades that run on for ever or pass the chain cap. */
module RuleCascades {
  import opened Text
  import opened Automation
  import opened PlanKeys
  import Cascade
  import ChainCap

  /** The sessions a plan acts on. */
  function Targets(plan: seq<Planned>): set<string> {
    set i | 0 <= i < |plan| && (plan[i].what.Start? || plan[i].what.Stop? || plan[i].what.SetMode?
                                || plan[i].what.SendMessage?) :: plan[i].what.target
  }

  /** Whatever the event and whatever the session's directory, goal and mode: the rules make its events act on exactly
      the sessions `hits` names. */
  ghost predicate Plans(rules: seq<Rule>, hits: string -> set<string>) {
    forall event, firing: FiringSession :: firing.id != "" ==> Targets(PlanOf(event, firing, rules)) == hits(firing.id)
  }

  const GO_ON := SetMode(SELF, Autopilot)
  const PUSH_B := SetMode("b", Autopilot)
  const PUSH_C := SetMode("c", Autopilot)

  /** One rule: every session is told to go on. */
  const TO_ITSELF := [Asks("on", GO_ON)]

  /** One rule: whatever happens, session `b` is told to go on. */
  const ALL_TO_B := [Asks("b", PUSH_B)]

  /** Two rules: so is session `c`, when it was session `a` to which something happened. */
  const TO_BOTH := [Asks("b", PUSH_B), Rule("c", "", None, [], Some(Filter("a", "", "", None)), [PUSH_C])]

  lemma OneTarget(p: Planned)
    requires p.what.SetMode?
    ensures KeepFirst([p]) == [p] && Targets([p]) == {p.what.target}
  {
    KeepFirstSnoc([], p);
    assert [] + [p] == [p] && Keys([]) == {};
    assert [p][0].what.target in Targets([p]);
  }

  lemma TwoTargets(p: Planned, q: Planned)
    requires p.what.SetMode? && q.what.SetMode? && p.what.target != q.what.target
    ensures KeepFirst([p, q]) == [p, q] && Targets([p, q]) == {p.what.target, q.what.target}
  {
    FirstOfTwo(p, q);
    if Key(p) == Key(q) {
      KindsNeverClash(p, q);
      ModesNeverClash(p.what.target, p.what.mode, q.what.target, q.what.mode);
    }
    assert [p, q][0].what.target in Targets([p, q]) && [p, q][1].what.target in Targets([p, q]);
  }

  lemma ToItselfPlans()
    ensures Plans(TO_ITSELF, Cascade.ITSELF)
  {
    forall event, firing: FiringSession | firing.id != ""
      ensures Targets(PlanOf(event, firing, TO_ITSELF)) == {firing.id}
    {
      OneAction(event, firing, "on", GO_ON, SetMode(firing.id, Autopilot));
      OneTarget(Planned("on", "", SetMode(firing.id, Autopilot)));
    }
  }

  lemma AllToBPlans()
    ensures Plans(ALL_TO_B, ChainCap.TO_B)
  {
    forall event, firing: FiringSession | firing.id != ""
      ensures Targets(PlanOf(event, firing, ALL_TO_B)) == {"b"}
    {
      OneAction(event, firing, "b", PUSH_B, PUSH_B);
      OneTarget(Planned("b", "", PUSH_B));
    }
  }

  /** What the second rule asks for. */
  lemma RuleForC(event: string, firing: FiringSession)
    ensures Eligible(event, firing, [TO_BOTH[1]]) == if firing.id == "a" then [Planned("c", "", PUSH_C)] else []
  {
    var rule := TO_BOTH[1];
    assert [rule][..0] == [] && rule.actions[..0] == [];
    assert FromActions(rule, rule.actions, firing) == [] + [Planned("c", "", PUSH_C)];
  }

  lemma EligibleOfBoth(event: string, firing: FiringSession)
    ensures Eligible(event, firing, TO_BOTH) ==
            [Planned("b", "", PUSH_B)] + if firing.id == "a" then [Planned("c", "", PUSH_C)] else []
  {
    OneAction(event, firing, "b", PUSH_B, PUSH_B);
    RuleForC(event, firing);
    EligibleAppend(event, firing, [TO_BOTH[0]], [TO_BOTH[1]]);
    assert [TO_BOTH[0]] + [TO_BOTH[1]] == TO_BOTH;
  }

  lemma ToBothPlans()
    ensures Plans(TO_BOTH, ChainCap.TO_B_AND_C)
  {
    var p, q := Planned("b", "", PUSH_B), Planned("c", "", PUSH_C);
    TwoTargets(p, q);
    OneTarget(p);
    assert [p] + [q] == [p, q] && [p] + [] == [p];
    forall event, firing: FiringSession | firing.id != ""
      ensures Targets(PlanOf(event, firing, TO_BOTH)) == ChainCap.TO_B_AND_C(firing.id)
    {
      EligibleOfBoth(event, firing);
    }
  }

  /** A single rule, and one restart after every `cap` hops, keep a cascade going for any number of hops. */
  lemma OneRuleRunsOn(cap: nat, b: nat, n: nat)
    requires cap > 0 && b >= 1 && n > 0
    ensures Plans(TO_ITSELF, Cascade.ITSELF)
    ensures exists steps :: && Cascade.LegalSteps(Cascade.ROOT, steps, cap, b)
                            && Cascade.FollowsSteps(Cascade.ROOT, steps, cap, b, Cascade.ITSELF)
                            && Cascade.HopCount(steps) == n && Cascade.RestartCount(steps) * cap < n
  {
    ToItselfPlans();
    Cascade.RestartsDefeatTheCap(cap, b, n);
  }

  /** Wherever chains are not sure to stay within the cap, two rules at most make them pass it. */
  lemma RulesPassTheCap(cap: nat, b: nat, p: nat)
    requires cap > 0 && !ChainCap.StaysWithin(cap, b, p)
    ensures exists rules, hits :: |rules| <= 2 && Plans(rules, hits)
                               && ChainCap.Passes(ChainCap.SameRoots(p), cap, b, hits)
  {
    ChainCap.ChainsStayWithinTheCapIff(cap, b, p);
    if p >= 2 {
      AllToBPlans();
      ChainCap.ManyRootsPass(cap, b, p);
      assert |ALL_TO_B| == 1 && Plans(ALL_TO_B, ChainCap.TO_B);
    } else {
      ToBothPlans();
      ChainCap.OneRootPasses(cap, b);
      assert |TO_BOTH| == 2 && Plans(TO_BOTH, ChainCap.TO_B_AND_C);
    }
  }
}
