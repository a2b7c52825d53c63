/** The automation planner: `src/policy/automation.ts`. An absent optional string is the empty string. */
module Automation {
  import opened Text
  import opened TextFacts

  const SELF := "$self"

  datatype Mode = Manual | Autopilot

  datatype Action =
    | Notify(message: string)
    | Start(target: string)
    | Stop(target: string)
    | SetMode(target: string, mode: Mode)
    | SendMessage(target: string, message: string)
    | Webhook(hook: string)

  datatype Filter = Filter(sessionId: string, cwdContains: string, goalContains: string, mode: Option<Mode>)

  datatype Rule = Rule(id: string, name: string, enabled: Option<bool>, on: seq<string>, filter: Option<Filter>,
                       actions: seq<Action>)

  datatype FiringSession = FiringSession(id: string, cwd: string, goal: string, mode: Option<Mode>)

  /** An action to perform, resolved, with the rule it came from. */
  datatype Planned = Planned(ruleId: string, ruleName: string, what: Action)

  // ---- which rules and actions apply -----------------------------------------

  predicate RuleEnabled(rule: Rule) {
    rule.enabled != Some(false)
  }

  predicate TriggersOn(rule: Rule, event: string) {
    rule.on == [] || event in rule.on
  }

  predicate MatchesSession(filter: Option<Filter>, s: FiringSession) {
    filter.Some? ==>
      var f := filter.value;
      && (f.sessionId != "" ==> f.sessionId == s.id)
      && (f.cwdContains != "" ==> Contains(Lower(s.cwd), Lower(f.cwdContains)))
      && (f.goalContains != "" ==> Contains(Lower(s.goal), Lower(f.goalContains)))
      && (f.mode.Some? ==> f.mode == s.mode)
  }

  predicate Applies(rule: Rule, event: string, firing: FiringSession) {
    RuleEnabled(rule) && TriggersOn(rule, event) && MatchesSession(rule.filter, firing)
  }

  function ResolveTarget(target: string, firing: FiringSession): string {
    if target == SELF then firing.id else target
  }

  /** The concrete action, or nothing when there is none to perform. */
  function Resolved(action: Action, firing: FiringSession): Option<Action> {
    match action
    case Notify(m) => Some(Notify(Trim(m)))
    case Webhook(h) => if Trim(h) == "" then None else Some(Webhook(Trim(h)))
    case Start(t) =>
      var target := ResolveTarget(t, firing);
      if target == "" || target == firing.id then None else Some(Start(target))
    case Stop(t) =>
      var target := ResolveTarget(t, firing);
      if target == "" then None else Some(Stop(target))
    case SetMode(t, mode) =>
      var target := ResolveTarget(t, firing);
      if target == "" then None else Some(SetMode(target, mode))
    case SendMessage(t, m) =>
      var target := ResolveTarget(t, firing);
      if target == "" || Trim(m) == "" then None else Some(SendMessage(target, Trim(m)))
  }

  function ModeName(mode: Mode): string {
    if mode == Manual then "manual" else "autopilot"
  }

  /** The string by which duplicates are recognised. */
  function Key(p: Planned): string {
    match p.what
    case Notify(m) => "notify:" + p.ruleId + ":" + m
    case Webhook(h) => "webhook:" + h
    case SetMode(t, mode) => "setMode:" + t + ":" + ModeName(mode)
    case SendMessage(t, m) => "sendMessage:" + t + ":" + m
    case Start(t) => "start:" + t
    case Stop(t) => "stop:" + t
  }

  // ---- the plan --------------------------------------------------------------

  function FromActions(rule: Rule, actions: seq<Action>, firing: FiringSession): seq<Planned> {
    if actions == [] then []
    else
      var before := FromActions(rule, actions[..|actions| - 1], firing);
      var r := Resolved(actions[|actions| - 1], firing);
      if r == None then before else before + [Planned(rule.id, rule.name, r.value)]
  }

  /** Every action some applicable rule asks for, in rule-then-action order, duplicates included. */
  function Eligible(event: string, firing: FiringSession, rules: seq<Rule>): seq<Planned> {
    if rules == [] then []
    else
      var before, rule := Eligible(event, firing, rules[..|rules| - 1]), rules[|rules| - 1];
      if Applies(rule, event, firing) then before + FromActions(rule, rule.actions, firing) else before
  }

  function Keys(xs: seq<Planned>): set<string> {
    set i | 0 <= i < |xs| :: Key(xs[i])
  }

  /** The first action with each key, in order. */
  function KeepFirst(xs: seq<Planned>): seq<Planned> {
    if xs == [] then []
    else
      var before, x := xs[..|xs| - 1], xs[|xs| - 1];
      if Key(x) in Keys(before) then KeepFirst(before) else KeepFirst(before) + [x]
  }

  lemma KeysSnoc(xs: seq<Planned>, x: Planned)
    ensures Keys(xs + [x]) == Keys(xs) + {Key(x)}
  {
    forall k
      ensures k in Keys(xs + [x]) <==> k in Keys(xs) + {Key(x)}
    {
      if k in Keys(xs) {
        var i :| 0 <= i < |xs| && Key(xs[i]) == k;
        assert Key((xs + [x])[i]) == k;
      } else if k == Key(x) {
        assert Key((xs + [x])[|xs|]) == k;
      }
    }
  }

  lemma KeepFirstSnoc(xs: seq<Planned>, x: Planned)
    ensures KeepFirst(xs + [x]) == if Key(x) in Keys(xs) then KeepFirst(xs) else KeepFirst(xs) + [x]
  {
    assert (xs + [x])[..|xs|] == xs;
  }

  method PlanAutomations(event: string, firing: FiringSession, rules: seq<Rule>) returns (plan: seq<Planned>)
    ensures plan == KeepFirst(Eligible(event, firing, rules))
  {
    plan := [];
    var seen: set<string> := {};
    ghost var eligible: seq<Planned> := [];
    var i := 0;
    while i < |rules|
      invariant i <= |rules|
      invariant eligible == Eligible(event, firing, rules[..i])
      invariant plan == KeepFirst(eligible) && seen == Keys(eligible)
    {
      var rule := rules[i];
      ghost var before := eligible;
      assert rules[..i + 1][..i] == rules[..i];
      i := i + 1;
      if !RuleEnabled(rule) || !TriggersOn(rule, event) || !MatchesSession(rule.filter, firing) {
        continue;
      }
      var j := 0;
      while j < |rule.actions|
        invariant j <= |rule.actions|
        invariant eligible == before + FromActions(rule, rule.actions[..j], firing)
        invariant plan == KeepFirst(eligible) && seen == Keys(eligible)
      {
        var r := Resolved(rule.actions[j], firing);
        assert rule.actions[..j + 1][..j] == rule.actions[..j];
        j := j + 1;
        if r == None {
          continue;
        }
        var p := Planned(rule.id, rule.name, r.value);
        KeysSnoc(eligible, p);
        KeepFirstSnoc(eligible, p);
        assert eligible + [p] == before + FromActions(rule, rule.actions[..j], firing);
        eligible := eligible + [p];
        if Key(p) in seen {
          continue;
        }
        seen := seen + {Key(p)};
        plan := plan + [p];
      }
      assert rule.actions[..j] == rule.actions;
    }
    assert rules[..i] == rules;
  }

  // ---- the plan is the keep-first selection ----------------------------------

  /** The position of the first eligible action with the key. */
  function First(xs: seq<Planned>, key: string): (i: nat)
    requires key in Keys(xs)
    ensures i < |xs| && Key(xs[i]) == key && forall j :: 0 <= j < i ==> Key(xs[j]) != key
  {
    if key in Keys(xs[..|xs| - 1]) then
      var i := First(xs[..|xs| - 1], key);
      assert forall j :: 0 <= j < |xs| - 1 ==> xs[..|xs| - 1][j] == xs[j];
      i
    else
      assert forall j :: 0 <= j < |xs| - 1 ==>
             Key(xs[j]) == Key(xs[..|xs| - 1][j]) && Key(xs[j]) in Keys(xs[..|xs| - 1]);
      |xs| - 1
  }

  lemma {:induction false} PlanHasAllKeys(xs: seq<Planned>)
    ensures Keys(KeepFirst(xs)) == Keys(xs)
  {
    if xs != [] {
      var before, x := xs[..|xs| - 1], xs[|xs| - 1];
      assert xs == before + [x];
      PlanHasAllKeys(before);
      KeysSnoc(before, x);
      if Key(x) !in Keys(before) {
        KeysSnoc(KeepFirst(before), x);
      }
    }
  }

  /** The plan keeps, of the eligible actions, for each key the first one, and keeps them in their order. */
  lemma {:induction false} PlanKeepsTheFirst(xs: seq<Planned>)
    ensures Keys(KeepFirst(xs)) == Keys(xs)
    ensures forall a :: 0 <= a < |KeepFirst(xs)| ==> KeepFirst(xs)[a] == xs[First(xs, Key(KeepFirst(xs)[a]))]
    ensures forall a, b :: 0 <= a < b < |KeepFirst(xs)| ==>
            First(xs, Key(KeepFirst(xs)[a])) < First(xs, Key(KeepFirst(xs)[b]))
  {
    PlanHasAllKeys(xs);
    if xs != [] {
      var before, x := xs[..|xs| - 1], xs[|xs| - 1];
      assert xs == before + [x];
      PlanKeepsTheFirst(before);
      FirstStays(before, x);
      forall a | 0 <= a < |KeepFirst(before)|
        ensures First(xs, Key(KeepFirst(before)[a])) == First(before, Key(KeepFirst(before)[a])) < |before|
      {
        assert Key(KeepFirst(before)[a]) in Keys(KeepFirst(before));
      }
    }
  }

  lemma FirstStays(xs: seq<Planned>, x: Planned)
    ensures Keys(xs + [x]) == Keys(xs) + {Key(x)}
    ensures forall key :: key in Keys(xs) ==> First(xs + [x], key) == First(xs, key)
    ensures Key(x) !in Keys(xs) ==> First(xs + [x], Key(x)) == |xs|
  {
    KeysSnoc(xs, x);
    assert (xs + [x])[..|xs|] == xs;
  }

  lemma {:induction false} EligibleAppend(event: string, firing: FiringSession, rules: seq<Rule>, more: seq<Rule>)
    ensures Eligible(event, firing, rules + more) == Eligible(event, firing, rules) + Eligible(event, firing, more)
  {
    if more == [] {
      assert rules + more == rules;
    } else {
      var all := rules + more;
      assert all[..|all| - 1] == rules + more[..|more| - 1];
      EligibleAppend(event, firing, rules, more[..|more| - 1]);
    }
  }

  /** Further actions only extend the plan, and only by those whose key is new. */
  lemma {:induction false} KeepFirstExtends(xs: seq<Planned>, ys: seq<Planned>)
    ensures KeepFirst(xs) <= KeepFirst(xs + ys)
    ensures Keys(ys) <= Keys(xs) ==> KeepFirst(xs + ys) == KeepFirst(xs)
  {
    if ys == [] {
      assert xs + ys == xs;
    } else {
      var init, last := ys[..|ys| - 1], ys[|ys| - 1];
      assert ys == init + [last];
      assert xs + ys == (xs + init) + [last];
      KeysSnoc(init, last);
      KeepFirstExtends(xs, init);
      KeepFirstSnoc(xs + init, last);
      KeysGrow(xs, init);
    }
  }

  lemma KeysGrow(xs: seq<Planned>, ys: seq<Planned>)
    ensures Keys(xs) <= Keys(xs + ys)
  {
    forall k | k in Keys(xs)
      ensures k in Keys(xs + ys)
    {
      var i :| 0 <= i < |xs| && Key(xs[i]) == k;
      assert Key((xs + ys)[i]) == k;
    }
  }

  /** Listing the rules twice changes nothing; appending rules never changes what is already planned. */
  lemma RulesTwiceSamePlan(event: string, firing: FiringSession, rules: seq<Rule>, more: seq<Rule>)
    ensures KeepFirst(Eligible(event, firing, rules + rules)) == KeepFirst(Eligible(event, firing, rules))
    ensures KeepFirst(Eligible(event, firing, rules)) <= KeepFirst(Eligible(event, firing, rules + more))
  {
    EligibleAppend(event, firing, rules, rules);
    EligibleAppend(event, firing, rules, more);
    var xs := Eligible(event, firing, rules);
    KeepFirstExtends(xs, xs);
    KeepFirstExtends(xs, Eligible(event, firing, more));
  }

  // ---- what can be planned ---------------------------------------------------

  /** The rule is not switched off, is for this event or for all, and each clause of its filter fits the session. */
  ghost predicate IsFor(rule: Rule, event: string, firing: FiringSession) {
    && (rule.enabled.Some? ==> rule.enabled.value)
    && (rule.on == [] || event in rule.on)
    && match rule.filter
       case None => true
       case Some(f) => Fits(f, firing)
  }

  ghost predicate Fits(f: Filter, firing: FiringSession) {
    && (f.sessionId == "" || f.sessionId == firing.id)
    && (f.cwdContains == "" || Mentions(firing.cwd, f.cwdContains))
    && (f.goalContains == "" || Mentions(firing.goal, f.goalContains))
    && (f.mode == None || f.mode == firing.mode)
  }

  /** The text contains the part, up to case. */
  ghost predicate Mentions(text: string, part: string) {
    exists i :: StandsAt(Lower(text), Lower(part), i)
  }

  /** What an action target stands for: "$self" is the session that fired, any other name itself; not the empty one. */
  predicate StandsFor(target: string, firing: FiringSession, id: string) {
    id != "" && (if target == "$self" then id == firing.id else id == target)
  }

  /** What performing the action means: texts are trimmed, nothing blank is sent or called, and no session starts
      itself. */
  ghost predicate Means(action: Action, firing: FiringSession, what: Action) {
    match action
    case Notify(m) => what == Notify(Trim(m))
    case Webhook(h) => HasInk(h) && what == Webhook(Trim(h))
    case Start(t) => what.Start? && StandsFor(t, firing, what.target) && what.target != firing.id
    case Stop(t) => what.Stop? && StandsFor(t, firing, what.target)
    case SetMode(t, mode) => what.SetMode? && StandsFor(t, firing, what.target) && what.mode == mode
    case SendMessage(t, m) =>
      what.SendMessage? && StandsFor(t, firing, what.target) && HasInk(m) && what.message == Trim(m)
  }

  /** A planned action comes from an action of a rule that is for the event and the session. */
  ghost predicate Asked(event: string, firing: FiringSession, rules: seq<Rule>, p: Planned) {
    exists i, j :: && 0 <= i < |rules| && 0 <= j < |rules[i].actions|
                   && IsFor(rules[i], event, firing)
                   && Means(rules[i].actions[j], firing, p.what)
                   && p.ruleId == rules[i].id && p.ruleName == rules[i].name
  }

  lemma AppliesIff(rule: Rule, event: string, firing: FiringSession)
    ensures Applies(rule, event, firing) <==> IsFor(rule, event, firing)
  {
    if rule.filter.Some? {
      var f := rule.filter.value;
      MentionsIff(firing.cwd, f.cwdContains);
      MentionsIff(firing.goal, f.goalContains);
      assert MatchesSession(rule.filter, firing) <==> Fits(f, firing);
    }
  }

  lemma MentionsIff(text: string, part: string)
    ensures Contains(Lower(text), Lower(part)) <==> Mentions(text, part)
  {
    ContainsIff(Lower(text), Lower(part));
  }

  lemma ResolvedIff(action: Action, firing: FiringSession, what: Action)
    ensures Resolved(action, firing) == Some(what) <==> Means(action, firing, what)
  {
    if action.Webhook? { TrimIsBlankTest(action.hook); }
    if action.SendMessage? { TrimIsBlankTest(action.message); }
  }

  lemma {:induction false} FromActionsIsAsked(rule: Rule, actions: seq<Action>, firing: FiringSession, p: Planned)
    ensures p in FromActions(rule, actions, firing)
            <==> p.ruleId == rule.id && p.ruleName == rule.name
                 && exists j :: 0 <= j < |actions| && Means(actions[j], firing, p.what)
  {
    if actions != [] {
      var init, last := actions[..|actions| - 1], actions[|actions| - 1];
      FromActionsIsAsked(rule, init, firing, p);
      ResolvedIff(last, firing, p.what);
      assert forall j :: 0 <= j < |init| ==> actions[j] == init[j];
    }
  }

  lemma {:induction false} EligibleIsAsked(event: string, firing: FiringSession, rules: seq<Rule>, p: Planned)
    ensures p in Eligible(event, firing, rules) <==> Asked(event, firing, rules, p)
  {
    if rules != [] {
      var init, rule := rules[..|rules| - 1], rules[|rules| - 1];
      EligibleIsAsked(event, firing, init, p);
      FromActionsIsAsked(rule, rule.actions, firing, p);
      AppliesIff(rule, event, firing);
      assert forall i :: 0 <= i < |init| ==> rules[i] == init[i];
      if Asked(event, firing, init, p) {
        var i, j :| && 0 <= i < |init| && 0 <= j < |init[i].actions|
                    && IsFor(init[i], event, firing) && Means(init[i].actions[j], firing, p.what)
                    && p.ruleId == init[i].id && p.ruleName == init[i].name;
        assert Means(rules[i].actions[j], firing, p.what);
      }
    }
  }

  lemma PlannedIsEligible(xs: seq<Planned>, p: Planned)
    requires p in KeepFirst(xs)
    ensures p in xs
  {
    PlanKeepsTheFirst(xs);
    var k :| 0 <= k < |KeepFirst(xs)| && KeepFirst(xs)[k] == p;
    assert Key(KeepFirst(xs)[k]) in Keys(KeepFirst(xs));
    assert p == xs[First(xs, Key(p))];
  }

  /** Loop safety: whatever the rules say, a plan never starts the session that fired, names no empty target and,
      unless that session is itself called "$self", no unresolved one; and all it holds was asked for. */
  lemma PlansAreSafe(event: string, firing: FiringSession, rules: seq<Rule>, p: Planned)
    requires p in KeepFirst(Eligible(event, firing, rules))
    ensures Asked(event, firing, rules, p)
    ensures p.what != Start(firing.id)
    ensures p.what.Start? || p.what.Stop? || p.what.SetMode? || p.what.SendMessage? ==>
              p.what.target != "" && (p.what.target == SELF ==> firing.id == SELF)
    ensures p.what.SendMessage? ==> p.what.message != ""
  {
    PlannedIsEligible(Eligible(event, firing, rules), p);
    EligibleIsAsked(event, firing, rules, p);
    var i, j :| && 0 <= i < |rules| && 0 <= j < |rules[i].actions|
                && IsFor(rules[i], event, firing) && Means(rules[i].actions[j], firing, p.what)
                && p.ruleId == rules[i].id && p.ruleName == rules[i].name;
    MeaningIsSafe(rules[i].actions[j], firing, p.what);
  }

  lemma MeaningIsSafe(action: Action, firing: FiringSession, a: Action)
    requires Means(action, firing, a)
    ensures a != Start(firing.id)
    ensures a.Start? || a.Stop? || a.SetMode? || a.SendMessage? ==>
              a.target != "" && (a.target == SELF ==> firing.id == SELF)
    ensures a.SendMessage? ==> a.message != ""
  {
    if action.SendMessage? { TrimIsBlankTest(action.message); }
  }
}
