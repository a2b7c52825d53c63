/** What the planner's duplicate keys tell apart, and what they do not. */
module PlanKeys {
  import opened Text
  import opened Automation

  /** The same action: for a notification also by the same rule. */
  predicate SameAction(p: Planned, q: Planned) {
    p.what == q.what && (p.what.Notify? ==> p.ruleId == q.ruleId)
  }

  /** `long` is `short`, a colon, and a rest that does not start with white space. */
  predicate ColonExtends(long: string, short: string) {
    && |short| < |long| && long[..|short|] == short && long[|short|] == ':'
    && (|long| > |short| + 1 ==> !IsSpace(long[|short| + 1]))
  }

  predicate MayClash(r: string, s: string) {
    ColonExtends(r, s) || ColonExtends(s, r)
  }

  // ---- when two keys clash ---------------------------------------------------

  /** Two trimmed messages under different names give one string only if one name is the other plus a colon. */
  lemma ClashNeedsColon(r: string, m: string, s: string, n: string)
    requires r + ":" + m == s + ":" + n && r != s && Trim(m) == m && Trim(n) == n
    ensures MayClash(r, s)
  {
    if |r| < |s| {
      LongerExtends(s, n, r, m);
    } else {
      LongerExtends(r, m, s, n);
    }
  }

  lemma LongerExtends(r: string, m: string, s: string, n: string)
    requires r + ":" + m == s + ":" + n && r != s && |s| <= |r| && Trim(n) == n
    ensures ColonExtends(r, s)
  {
    var whole := r + ":" + m;
    var k := |s|;
    assert whole[..k] == r[..k] && (s + ":" + n)[..k] == s;
    assert r[..|r|] == r;
    assert whole[k] == r[k] && (s + ":" + n)[k] == ':';
    if |r| > k + 1 {
      TrimmedIff(n);
      assert whole[k + 1] == r[k + 1] && (s + ":" + n)[k + 1] == n[0];
    }
  }

  lemma ColonMakesClash(r: string, s: string) returns (m: string, n: string)
    requires ColonExtends(r, s)
    ensures r + ":" + m == s + ":" + n && Trim(m) == m && Trim(n) == n && m != "" && n != ""
  {
    m := "m";
    var rest := r[|s| + 1..];
    n := rest + ":" + m;
    TrimmedIff(m);
    TrimmedIff(n);
    assert r == s + ":" + rest;
  }

  ghost predicate Clashing(r: string, s: string, m: string, n: string) {
    r + ":" + m == s + ":" + n && Trim(m) == m && Trim(n) == n && m != "" && n != ""
  }

  lemma ClashIff(r: string, s: string)
    requires r != s
    ensures (exists m, n :: Clashing(r, s, m, n)) <==> MayClash(r, s)
  {
    if m, n :| Clashing(r, s, m, n) {
      ClashNeedsColon(r, m, s, n);
    }
    if ColonExtends(r, s) {
      var m, n := ColonMakesClash(r, s);
      assert Clashing(r, s, m, n);
    } else if ColonExtends(s, r) {
      var m, n := ColonMakesClash(s, r);
      assert Clashing(r, s, n, m);
    }
  }

  // ---- keys of actions -------------------------------------------------------

  predicate Clean(a: Action) {
    (a.Notify? || a.SendMessage?) ==> Trim(a.message) == a.message
  }

  function Tag(a: Action): string {
    match a
    case Notify(_) => "notify:"
    case Webhook(_) => "webhook:"
    case SetMode(_, _) => "setMode:"
    case SendMessage(_, _) => "sendMessage:"
    case Start(_) => "start:"
    case Stop(_) => "stop:"
  }

  function Rest(p: Planned): string {
    match p.what
    case Notify(m) => p.ruleId + ":" + m
    case Webhook(h) => h
    case SetMode(t, mode) => t + ":" + ModeName(mode)
    case SendMessage(t, m) => t + ":" + m
    case Start(t) => t
    case Stop(t) => t
  }

  lemma KeyParts(p: Planned)
    ensures Key(p) == Tag(p.what) + Rest(p)
  {
    match p.what {
      case Notify(m) => assert "notify:" + (p.ruleId + ":" + m) == Key(p);
      case SetMode(t, mode) => assert "setMode:" + (t + ":" + ModeName(mode)) == Key(p);
      case SendMessage(t, m) => assert "sendMessage:" + (t + ":" + m) == Key(p);
      case _ =>
    }
  }

  /** Actions of different kinds never share a key. */
  lemma KindsNeverClash(p: Planned, q: Planned)
    requires Key(p) == Key(q)
    ensures Tag(p.what) == Tag(q.what) && Rest(p) == Rest(q)
  {
    KeyParts(p);
    KeyParts(q);
    var a, b := Tag(p.what), Tag(q.what);
    assert forall i :: 0 <= i < |a| ==> Key(p)[i] == a[i];
    assert forall i :: 0 <= i < |b| ==> Key(q)[i] == b[i];
    assert a[0] == b[0] && a[1] == b[1] && a[2] == b[2] && a[3] == b[3];
    assert a == b;
    assert Key(p)[|a|..] == Rest(p) && Key(q)[|b|..] == Rest(q);
  }

  lemma ModesNeverClash(t: string, m: Mode, u: string, n: Mode)
    requires t + ":" + ModeName(m) == u + ":" + ModeName(n)
    ensures t == u && m == n
  {
    var whole := t + ":" + ModeName(m);
    assert whole[|whole| - 1] == ModeName(m)[|ModeName(m)| - 1];
    assert whole[|whole| - 1] == ModeName(n)[|ModeName(n)| - 1];
    assert whole[..|t|] == t && (u + ":" + ModeName(n))[..|u|] == u;
  }

  /** One key, two different actions: exactly two notifications whose rules' ids, or two messages whose targets,
      are one the other plus a colon. */
  lemma SharedKeyMeans(p: Planned, q: Planned)
    requires Key(p) == Key(q) && Clean(p.what) && Clean(q.what)
    ensures SameAction(p, q)
            || (p.what.Notify? && q.what.Notify? && p.ruleId != q.ruleId && MayClash(p.ruleId, q.ruleId))
            || (p.what.SendMessage? && q.what.SendMessage? && p.what.target != q.what.target
                && MayClash(p.what.target, q.what.target))
  {
    KindsNeverClash(p, q);
    match p.what {
      case Notify(m) =>
        var n := q.what.message;
        if p.ruleId != q.ruleId {
          ClashNeedsColon(p.ruleId, m, q.ruleId, n);
        } else {
          assert Rest(p)[|p.ruleId| + 1..] == m && Rest(q)[|p.ruleId| + 1..] == n;
        }
      case SendMessage(t, m) =>
        var u, n := q.what.target, q.what.message;
        if t != u {
          ClashNeedsColon(t, m, u, n);
        } else {
          assert Rest(p)[|t| + 1..] == m && Rest(q)[|t| + 1..] == n;
        }
      case SetMode(t, m) => ModesNeverClash(t, m, q.what.target, q.what.mode);
      case _ =>
    }
  }

  // ---- only exact duplicates are dropped -------------------------------------

  /** No two names in use are one the other plus a colon. */
  ghost predicate NamesApart(xs: seq<Planned>) {
    && (forall i, j :: 0 <= i < |xs| && 0 <= j < |xs| && xs[i].what.Notify? && xs[j].what.Notify? ==>
          !MayClash(xs[i].ruleId, xs[j].ruleId))
    && (forall i, j :: 0 <= i < |xs| && 0 <= j < |xs| && xs[i].what.SendMessage? && xs[j].what.SendMessage? ==>
          !MayClash(xs[i].what.target, xs[j].what.target))
  }

  lemma EligibleIsClean(event: string, firing: FiringSession, rules: seq<Rule>, p: Planned)
    requires p in Eligible(event, firing, rules)
    ensures Clean(p.what)
  {
    EligibleIsAsked(event, firing, rules, p);
    var i, j :| && 0 <= i < |rules| && 0 <= j < |rules[i].actions|
                && IsFor(rules[i], event, firing) && Means(rules[i].actions[j], firing, p.what)
                && p.ruleId == rules[i].id && p.ruleName == rules[i].name;
    match rules[i].actions[j] {
      case Notify(m) => TrimIsTrimmed(m);
      case SendMessage(_, m) => TrimIsTrimmed(m);
      case _ =>
    }
  }

  /** With names apart, every eligible action is performed: the plan drops exact duplicates and nothing else. */
  lemma OnlyDuplicatesCollapse(event: string, firing: FiringSession, rules: seq<Rule>, p: Planned)
    requires NamesApart(Eligible(event, firing, rules))
    requires p in Eligible(event, firing, rules)
    ensures exists q :: q in KeepFirst(Eligible(event, firing, rules)) && SameAction(p, q)
  {
    var xs := Eligible(event, firing, rules);
    PlanKeepsTheFirst(xs);
    var i :| 0 <= i < |xs| && xs[i] == p;
    assert Key(xs[i]) in Keys(KeepFirst(xs));
    var k :| 0 <= k < |KeepFirst(xs)| && Key(KeepFirst(xs)[k]) == Key(p);
    var q := KeepFirst(xs)[k];
    PlannedIsEligible(xs, q);
    EligibleIsClean(event, firing, rules, p);
    EligibleIsClean(event, firing, rules, q);
    SharedKeyMeans(p, q);
    var j :| 0 <= j < |xs| && xs[j] == q;
    assert q in KeepFirst(xs) && SameAction(p, q);
  }

  /** A rule that asks for one action of every session, on every event. */
  function Asks(id: string, action: Action): Rule {
    Rule(id, "", None, [], None, [action])
  }

  function PlanOf(event: string, firing: FiringSession, rules: seq<Rule>): seq<Planned> {
    KeepFirst(Eligible(event, firing, rules))
  }

  /** ... and for two rule ids there are notifications of which only one is sent, if and only if the ids are not
      apart. */
  lemma ClashingIdsLoseANotification(event: string, firing: FiringSession, r: string, s: string)
    requires r != s
    ensures MayClash(r, s) <==>
            exists m, n :: |PlanOf(event, firing, [Asks(r, Notify(m)), Asks(s, Notify(n))])| == 1
  {
    if MayClash(r, s) {
      ClashIff(r, s);
      var m, n :| Clashing(r, s, m, n);
      PlanOfTwo(event, firing, r, Notify(m), Notify(m), s, Notify(n), Notify(n));
      KeyParts(Planned(r, "", Notify(m)));
      KeyParts(Planned(s, "", Notify(n)));
    }
    if m, n :| |PlanOf(event, firing, [Asks(r, Notify(m)), Asks(s, Notify(n))])| == 1 {
      var x, y := Notify(Trim(m)), Notify(Trim(n));
      PlanOfTwo(event, firing, r, Notify(m), x, s, Notify(n), y);
      TrimIsTrimmed(m);
      TrimIsTrimmed(n);
      SharedKeyMeans(Planned(r, "", x), Planned(s, "", y));
    }
  }

  /** Likewise for messages that are not blank: of two rules, whatever their ids, that write to different sessions only
      one can be obeyed if and only if one session's id is the other, a colon, and a rest without leading space. */
  lemma ClashingTargetsLoseAMessage(event: string, firing: FiringSession, r: string, a: string, s: string, b: string)
    requires ResolveTarget(a, firing) != "" && ResolveTarget(b, firing) != ""
    requires ResolveTarget(a, firing) != ResolveTarget(b, firing)
    ensures MayClash(ResolveTarget(a, firing), ResolveTarget(b, firing)) <==>
            exists m, n ::
              && Trim(m) != "" && Trim(n) != ""
              && |PlanOf(event, firing, [Asks(r, SendMessage(a, m)), Asks(s, SendMessage(b, n))])| == 1
  {
    var t, u := ResolveTarget(a, firing), ResolveTarget(b, firing);
    if MayClash(t, u) {
      ClashIff(t, u);
      var m, n :| Clashing(t, u, m, n);
      var x, y := SendMessage(t, m), SendMessage(u, n);
      PlanOfTwo(event, firing, r, SendMessage(a, m), x, s, SendMessage(b, n), y);
      KeyParts(Planned(r, "", x));
      KeyParts(Planned(s, "", y));
    }
    if m, n :| && Trim(m) != "" && Trim(n) != ""
               && |PlanOf(event, firing, [Asks(r, SendMessage(a, m)), Asks(s, SendMessage(b, n))])| == 1
    {
      var x, y := SendMessage(t, Trim(m)), SendMessage(u, Trim(n));
      PlanOfTwo(event, firing, r, SendMessage(a, m), x, s, SendMessage(b, n), y);
      TrimIsTrimmed(m);
      TrimIsTrimmed(n);
      SharedKeyMeans(Planned(r, "", x), Planned(s, "", y));
    }
  }

  /** Of two rules with one action each the second one's is dropped exactly when the keys are the same. */
  lemma PlanOfTwo(event: string, firing: FiringSession, r: string, a: Action, x: Action, s: string, b: Action,
                  y: Action)
    requires Resolved(a, firing) == Some(x) && Resolved(b, firing) == Some(y)
    ensures var p, q := Planned(r, "", x), Planned(s, "", y);
            PlanOf(event, firing, [Asks(r, a), Asks(s, b)]) == if Key(p) == Key(q) then [p] else [p, q]
  {
    var p, q := Planned(r, "", x), Planned(s, "", y);
    OneAction(event, firing, r, a, x);
    OneAction(event, firing, s, b, y);
    EligibleAppend(event, firing, [Asks(r, a)], [Asks(s, b)]);
    assert [Asks(r, a)] + [Asks(s, b)] == [Asks(r, a), Asks(s, b)];
    FirstOfTwo(p, q);
    assert [p] + [q] == [p, q];
  }

  lemma FirstOfTwo(p: Planned, q: Planned)
    ensures KeepFirst([p, q]) == if Key(p) == Key(q) then [p] else [p, q]
  {
    KeepFirstSnoc([], p);
    KeepFirstSnoc([p], q);
    assert [p] + [q] == [p, q] && [] + [p] == [p];
    assert Keys([]) == {} && Key([p][0]) in Keys([p]);
  }

  lemma OneAction(event: string, firing: FiringSession, id: string, action: Action, what: Action)
    requires Resolved(action, firing) == Some(what)
    ensures Eligible(event, firing, [Asks(id, action)]) == [Planned(id, "", what)]
  {
    var rule := Asks(id, action);
    assert [rule][..0] == [];
    assert rule.actions[..0] == [];
    assert FromActions(rule, rule.actions, firing) == [] + [Planned(id, "", what)];
  }
}
