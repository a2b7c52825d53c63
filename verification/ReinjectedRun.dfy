/** A run whose own recovery is mined as if a human had overridden the brain. */
module ReinjectedRun {
  import opened Text
  import opened GuardPolicy
  import opened RunModel
  import opened Recovery
  import opened Orchestrator
  import opened TraceShape
  import opened Recorder
  import opened RecorderFacts
  import opened RunRows
  import opened ExampleBank
  import opened LiveSignals
  import opened EndToEnd

  // ---- the wrapper's first word ----------------------------------------------

  lemma {:induction false} TrimEndReaches(s: string, i: nat)
    requires i < |s| && !IsSpace(s[i])
    ensures |TrimEnd(s)| > i && TrimEnd(s) <= s
  {
    if IsSpace(s[|s| - 1]) { TrimEndReaches(s[..|s| - 1], i); }
  }

  lemma {:induction false} CollapseWord(w: string, rest: string)
    requires forall i :: 0 <= i < |w| ==> !IsSpace(w[i])
    ensures Collapse(w + rest, IsSpace) == w + Collapse(rest, IsSpace)
  {
    if w == "" {
      assert w + rest == rest;
    } else {
      assert (w + rest)[1..] == w[1..] + rest;
      CollapseWord(w[1..], rest);
    }
  }

  predicate StartsYour(s: string) {
    |s| >= 6 && s[0] == 'y' && s[1] == 'o' && s[2] == 'u' && s[3] == 'r' && s[4] == ' ' && s[5] == 'p'
  }

  lemma CollapseLead(s: string)
    requires StartsYour(s)
    ensures StartsYour(Collapse(s, IsSpace))
  {
    var tail := s[5..];
    assert s == "your" + (" " + tail) && tail == "p" + s[6..];
    CollapseWord("your", " " + tail);
    assert (" " + tail)[1..] == tail;
    CollapseWord("p", s[6..]);
  }

  lemma NormalLead(s: string)
    requires StartsYour(Lower(s))
    ensures StartsYour(Normalize(s))
  {
    var t := Collapse(Lower(s), IsSpace);
    CollapseLead(Lower(s));
    assert TrimStart(t) == t;
    TrimEndReaches(t, 5);
  }

  lemma FirstWord(s: string)
    requires StartsYour(Lower(s))
    ensures "your" in TokenSet(s)
  {
    var n := Normalize(s);
    NormalLead(s);
    assert n[..4] == "your";
    SplitAtFirst(n, ' ', 4);
    assert Split(n, ' ')[0] == "your";
  }

  /** The words by which the miner compares an instruction. */
  function Words(p: string): set<string> {
    TokenSet(Normalize(p))
  }

  lemma WrapperSaysYour(p: string)
    requires !IsSlashCommand(p)
    ensures "your" in Words(Reinjection(p))
  {
    WrapperLead(p);
    NormalLead(Reinjection(p));
    LowerKeepsLead(Normalize(Reinjection(p)));
    FirstWord(Normalize(Reinjection(p)));
  }

  lemma WrapperLead(p: string)
    requires !IsSlashCommand(p)
    ensures StartsYour(Lower(Reinjection(p)))
  {
    assert LowerChar('Y') == 'y';
  }

  lemma LowerKeepsLead(s: string)
    requires StartsYour(s)
    ensures StartsYour(Lower(s))
  {
  }

  /** A prompt of fewer than nine words, none of them "your", does not pass for its wrapper. */
  lemma ShortPromptIsNotItsWrapper(p: string)
    requires !IsSlashCommand(p) && "your" !in Words(p) && |Words(p)| < 9
    ensures !SameInstruction(Reinjection(p), p)
  {
    WrapperSaysYour(p);
    FarApart(Words(Reinjection(p)), Words(p));
  }

  lemma FarApart(sa: set<string>, sb: set<string>)
    requires "your" in sa && "your" !in sb && |sb| < 9
    ensures 10 * |sa * sb| < 9 * (|sa| + |sb| - |sa * sb|)
  {
    SubsetIsSmall(sa * sb, sb);
    SubsetIsSmall((sa * sb) + {"your"}, sa);
    assert |(sa * sb) + {"your"}| == |sa * sb| + 1;
  }

  lemma {:induction false} SubsetIsSmall(a: set<string>, b: set<string>)
    requires a <= b
    ensures |a| <= |b|
  {
    if a != {} {
      var x :| x in a;
      SubsetIsSmall(a - {x}, b - {x});
    }
  }

  // ---- the run ---------------------------------------------------------------

  const SETUP := Setup("g", "", Limits(10, 100, 5, 0), "", "")

  function Calm(k: nat): GracePoll {
    GracePoll(0, 0, false, None, true, None)
  }

  /** The agent does the first thing it is asked to do. */
  function AtOnce(k: nat): Attempt {
    Attempt(false, None, None, false, None, Calm, Replies([], "done"), false)
  }

  /** The agent hangs on its first attempt, having written to the transcript; the turn ended without a reply. */
  function AtSecond(k: nat): Attempt {
    if k == 0 then Attempt(false, None, None, false, None, Calm, Fails([], Failure(Timeout, "")), false)
    else Attempt(false, None, Some(1), true, None, Calm, Replies([], "ok"), false)
  }

  const KICK_OFF :=
    Tick(None, RunModel.Autopilot, Ok(SwitchMode), "", Unreachable, [], "", Ok(ChooseStop), 0, TurnScript(0, AtOnce),
         "", Roomy, NotDue)

  /** The brain says to continue with `p`. */
  function GoOn(p: string): Tick {
    KICK_OFF.(brain := Decides(Continue(p, "")), turn := TurnScript(0, AtSecond))
  }

  const STARTED := Run(FreshCore("g"), [], None)

  lemma FirstTurn() returns (r: Run)
    ensures Pass(SETUP, KICK_OFF, STARTED) == Live(r)
    ensures r.core.trace == [Start("g"), Turn(1, "g", "done")] && r.ran == [Ran("g", "g")] && r.lastText == Some("done")
    ensures r.core.guards.turns == 1 && |r.core.guards.recent| == 1
  {
    var (g, stop) := GuardCheck(SETUP.limits, NO_TURNS, "g", 0);
    assert stop == None && |g.recent| == 1;
    assert Orchestrator.Source(SETUP, KICK_OFF, STARTED) == Prompt(STARTED.core, "g");
    assert Heal(1, "g", KICK_OFF.turn) == Healed([], [Send(0, "g")], Done("g", "done"));
    r := FinishTurn(STARTED.(core := STARTED.core.(guards := g), driven := [Send(0, "g")]), "g", "g", "done", "");
    assert r.core.trace == [Start("g")] + [Turn(1, "g", "done")];
  }

  lemma HealsBySecond(n: nat, p: string)
    ensures Heal(n, p, TurnScript(0, AtSecond)).events == [Recovery(n, 1, "")]
    ensures Heal(n, p, TurnScript(0, AtSecond)).outcome == Done(Reinjection(p), "ok")
  {
    var script := TurnScript(0, AtSecond);
    var t := TryAttempt(p, 0, AtSecond(0), 0, p);
    assert t.end == Gave(Failure(Timeout, "")) && t.events == [];
    assert Triage(0, AtSecond(1)) == Reconcile;
    var again := TryAttempt(p, 0, AtSecond(1), 1, p);
    assert again.events == [] && again.end == Done(Reinjection(p), "ok");
    assert Ladder(n, p, script, 1, p) == Healed([], again.acts, again.end);
  }

  lemma SecondTurn(r: Run, p: string) returns (q: Run)
    requires r.core.trace == [Start("g"), Turn(1, "g", "done")] && r.ran == [Ran("g", "g")]
             && r.lastText == Some("done")
    requires r.core.guards.turns == 1 && |r.core.guards.recent| == 1
    ensures Pass(SETUP, GoOn(p), r) == Live(q)
    ensures q.ran == [Ran("g", "g"), Ran(p, Reinjection(p))]
    ensures q.core.trace == [Start("g"), Turn(1, "g", "done"), Decided(1, Continue(p, "")), Recovery(2, 1, ""),
                             Turn(2, Reinjection(p), "ok")]
  {
    var t := GoOn(p);
    var asked := r.core.(asked := r.core.asked + [Query("done", 1)]);
    var decided := Emit(asked, [Decided(1, Continue(p, ""))]);
    assert Orchestrator.Source(SETUP, t, r) == Prompt(decided, p);
    var (g, stop) := GuardCheck(SETUP.limits, decided.guards, p, 0);
    assert stop == None && g.turns == 2;
    HealsBySecond(2, p);
    var acts := Heal(2, p, t.turn).acts;
    var after := r.(core := Emit(decided.(guards := g), [Recovery(2, 1, "")]), driven := r.driven + acts);
    q := FinishTurn(after, p, Reinjection(p), "ok", "");
    assert q.core.trace == r.core.trace + [Decided(1, Continue(p, ""))] + [Recovery(2, 1, "")]
           + [Turn(2, Reinjection(p), "ok")];
  }

  lemma TheRun(p: string)
    ensures var r := SessionRun(SETUP, TheWorld(p)).run;
            && r.ran == [Ran("g", "g"), Ran(p, Reinjection(p))]
            && r.core.trace == [Start("g"), Turn(1, "g", "done"), Decided(1, Continue(p, "")), Recovery(2, 1, ""),
                                Turn(2, Reinjection(p), "ok")]
  {
    var r := FirstTurn();
    var q := SecondTurn(r, p);
    assert [KICK_OFF, GoOn(p)][1..] == [GoOn(p)] && [GoOn(p)][1..] == [];
    assert Loop(SETUP, [GoOn(p)], r) == Live(q);
    assert Loop(SETUP, [KICK_OFF, GoOn(p)], STARTED) == Live(q);
  }

  // ---- what is mined ---------------------------------------------------------

  lemma DecisionsOfTheRun(p: string, x: Event, y: Event)
    requires !x.Decided? && y.Turn? && !x.Turn?
    ensures var trace := [Start("g"), Turn(1, "g", "done"), Decided(1, Continue(p, "")), x, y];
            TurnsOf(trace) == [Turn(1, "g", "done"), y] && DecisionsAfter(trace, 1) == [Continue(p, "")]
  {
    var a := [Start("g")];
    var b := a + [Turn(1, "g", "done")];
    var c := b + [Decided(1, Continue(p, ""))];
    var d := c + [x];
    TurnsSnoc([], Start("g"));
    TurnsSnoc(a, Turn(1, "g", "done"));
    TurnsSnoc(b, Decided(1, Continue(p, "")));
    TurnsSnoc(c, x);
    TurnsSnoc(d, y);
    DecisionsSnoc([], Start("g"), 1);
    DecisionsSnoc(a, Turn(1, "g", "done"), 1);
    DecisionsSnoc(b, Decided(1, Continue(p, "")), 1);
    DecisionsSnoc(c, x, 1);
    DecisionsSnoc(d, y, 1);
    assert [] + [Start("g")] == a;
    assert [Start("g"), Turn(1, "g", "done"), Decided(1, Continue(p, "")), x, y] == d + [y];
  }

  /** A run in autopilot without a human: the goal, then `p` at the brain's word. */
  function TheWorld(p: string): World {
    World(None, NotDue, [KICK_OFF, GoOn(p)])
  }

  function ItsStream(p: string, session: string): seq<(string, Event)> {
    Tag(session, SessionRun(SETUP, TheWorld(p)).run.core.trace)
  }

  /** Every short prompt that is neither blank nor a slash command, once re-injected after a `continue`, is mined as
      a correction of the brain, though no human ever spoke. */
  lemma ReinjectionIsMined(p: string, session: string, hash: Hasher, when: int)
    requires Trim(p) != "" && !IsSlashCommand(p) && "your" !in Words(p) && |Words(p)| < 9
    ensures RecordedLast(_ => session, ItsStream(p, session), session, [], SETUP, TheWorld(p))
    ensures var rows := ViewSession(RecordAll(EMPTY, ItsStream(p, session)), session);
            rows != [] && Corrections(Last(rows).turns, hash, when) != []
  {
    EveryRunCanBeRecorded(session, SETUP, TheWorld(p));
    CorrectionsIff(_ => session, ItsStream(p, session), session, [], SETUP, TheWorld(p), hash, when);
    SecondTurnLooksOverridden(p);
  }

  lemma SecondTurnLooksOverridden(p: string)
    requires Trim(p) != "" && !IsSlashCommand(p) && "your" !in Words(p) && |Words(p)| < 9
    ensures var r := SessionRun(SETUP, TheWorld(p)).run;
            |r.ran| == 2 == |TurnsOf(r.core.trace)| && LooksOverridden(r, 1)
  {
    TheRun(p);
    var r := SessionRun(SETUP, TheWorld(p)).run;
    ItLooksOverridden(r, p);
  }

  lemma ItLooksOverridden(r: Run, p: string)
    requires Trim(p) != "" && !IsSlashCommand(p) && "your" !in Words(p) && |Words(p)| < 9
    requires r.ran == [Ran("g", "g"), Ran(p, Reinjection(p))]
    requires r.core.trace == [Start("g"), Turn(1, "g", "done"), Decided(1, Continue(p, "")), Recovery(2, 1, ""),
                              Turn(2, Reinjection(p), "ok")]
    ensures |TurnsOf(r.core.trace)| == 2 && LooksOverridden(r, 1)
  {
    DecisionsOfTheRun(p, Recovery(2, 1, ""), Turn(2, Reinjection(p), "ok"));
    ShortPromptIsNotItsWrapper(p);
    ReinjectionIsNotVerbatim(p);
    DoneIsNotBlank();
  }

  lemma DoneIsNotBlank()
    ensures Trim("done") != ""
  {
    TrimmedIff("done");
  }

  /** One letter is such a prompt. */
  lemma OneLetterIsMined(session: string, hash: Hasher, when: int)
    ensures var stream := ItsStream("x", session);
            && RecordedLast(_ => session, stream, session, [], SETUP, TheWorld("x"))
            && var rows := ViewSession(RecordAll(EMPTY, stream), session);
               rows != [] && Corrections(Last(rows).turns, hash, when) != []
  {
    OneLetterPrompt();
    ReinjectionIsMined("x", session, hash, when);
  }

  lemma OneLetterPrompt()
    ensures Trim("x") != "" && !IsSlashCommand("x") && Words("x") == {}
  {
    TrimmedIff("x");
    assert Lower("x") == "x";
    CollapseWord("x", "");
    assert "x" + "" == "x" && Normalize("x") == "x";
    assert Split("x"[1..], ' ') == [""];
    assert Split("x", ' ') == ["x"];
  }
}
