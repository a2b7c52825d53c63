/** Run guards (`src/policy/guards.ts`) and the stall detector (`src/policy/stuck.ts`). */
module GuardPolicy {
  import opened Text
  import opened TextFacts

  /** `maxTurns` and the wall-clock cap bound a run; `pingPongThreshold` and `stuckTurns` detect loops. */
  datatype Limits = Limits(maxTurns: int, maxWallClockMin: int, pingPongThreshold: int, stuckTurns: int)

  /** Why a run stopped. */
  datatype Reason =
    | HitMaxTurns(limit: int)
    | HitWallClock(limit: int)
    | PingPong(threshold: int)
    | ByOperator(text: string)
    | ModelUnreachable
    | HumanSaidStop
    | Said(text: string)

  datatype GuardState = GuardState(turns: nat, recent: seq<string>)

  const NO_TURNS := GuardState(0, [])

  predicate IsWordChar(c: char) {
    'a' <= c <= 'z' || '0' <= c <= '9'
  }

  /** Prompts are compared ignoring case, white space and punctuation. */
  function Norm(s: string): string {
    Trim(Collapse(Lower(s), c => !IsWordChar(c)))
  }

  /** The ping-pong window after one more prompt: pushed at the end, shifted when over the threshold. */
  function Slide(recent: seq<string>, n: string, threshold: int): seq<string> {
    var pushed := recent + [n];
    if |pushed| > threshold then pushed[1..] else pushed
  }

  /** One guard check: the new state, and the reason to stop if there is one. */
  function GuardCheck(limits: Limits, g: GuardState, prompt: string, elapsedMs: int): (GuardState, Option<Reason>) {
    var counted := g.(turns := g.turns + 1);
    if counted.turns > limits.maxTurns then
      (counted, Some(HitMaxTurns(limits.maxTurns)))
    else if elapsedMs > limits.maxWallClockMin * 60_000 then
      (counted, Some(HitWallClock(limits.maxWallClockMin)))
    else
      var n := Norm(prompt);
      var window := Slide(g.recent, n, limits.pingPongThreshold);
      var checked := counted.(recent := window);
      if |window| >= limits.pingPongThreshold && (forall p :: p in window ==> p == n) then
        (checked, Some(PingPong(limits.pingPongThreshold)))
      else
        (checked, None)
  }

  class Guards {
    const limits: Limits
    var turns: nat
    var recentPrompts: seq<string>

    constructor (limits: Limits)
      ensures this.limits == limits && State() == NO_TURNS
    {
      this.limits := limits;
      turns := 0;
      recentPrompts := [];
    }

    function State(): GuardState
      reads this
    {
      GuardState(turns, recentPrompts)
    }

    method Check(nextPrompt: string, elapsedMs: int) returns (stop: Option<Reason>)
      modifies this
      ensures (State(), stop) == GuardCheck(limits, old(State()), nextPrompt, elapsedMs)
    {
      turns := turns + 1;
      if turns > limits.maxTurns {
        return Some(HitMaxTurns(limits.maxTurns));
      }
      if elapsedMs > limits.maxWallClockMin * 60_000 {
        return Some(HitWallClock(limits.maxWallClockMin));
      }
      var n := Norm(nextPrompt);
      recentPrompts := recentPrompts + [n];
      if |recentPrompts| > limits.pingPongThreshold {
        recentPrompts := recentPrompts[1..];
      }
      if |recentPrompts| >= limits.pingPongThreshold {
        var same, i := true, 0;
        while i < |recentPrompts|
          invariant 0 <= i <= |recentPrompts|
          invariant same <==> forall j :: 0 <= j < i ==> recentPrompts[j] == n
        {
          same := same && recentPrompts[i] == n;
          i := i + 1;
        }
        if same {
          assert forall p :: p in recentPrompts ==> p == n;
          return Some(PingPong(limits.pingPongThreshold));
        }
        ghost var j :| 0 <= j < |recentPrompts| && recentPrompts[j] != n;
        assert recentPrompts[j] in recentPrompts;
      }
      return None;
    }
  }

  // ---- what a history of passed checks looks like ----------------------------

  function NormAll(prompts: seq<string>): seq<string> {
    seq(|prompts|, i requires 0 <= i < |prompts| => Norm(prompts[i]))
  }

  /** The last `n` elements, or all of them. */
  function LastN<T>(s: seq<T>, n: nat): seq<T> {
    if |s| <= n then s else s[|s| - n..]
  }

  /** The `n` prompts that end before position `end` all say the same. */
  ghost predicate Repeats(prompts: seq<string>, end: int, n: int)
    requires 1 <= n <= end <= |prompts|
  {
    forall j :: end - n <= j < end ==> Norm(prompts[j]) == Norm(prompts[end - 1])
  }

  /** No `n` consecutive prompts are equal after normalisation. */
  ghost predicate NoPingPong(prompts: seq<string>, n: int)
    requires n >= 1
  {
    forall end :: n <= end <= |prompts| ==> !Repeats(prompts, end, n)
  }

  /** What the guard state knows after the checks of `passed` all passed. */
  ghost predicate Tracks(limits: Limits, g: GuardState, passed: seq<string>) {
    && g.turns == |passed|
    && (passed == [] || |passed| <= limits.maxTurns)
    && if limits.pingPongThreshold >= 1
       then g.recent == LastN(NormAll(passed), limits.pingPongThreshold) && NoPingPong(passed, limits.pingPongThreshold)
       else g.recent == [] && passed == []
  }

  lemma SlideIsLastN(prompts: seq<string>, p: string, n: nat)
    requires n >= 1
    ensures Slide(LastN(NormAll(prompts), n), Norm(p), n) == LastN(NormAll(prompts + [p]), n)
  {
    NormAllSnoc(prompts, p);
    LastNSnoc(NormAll(prompts), Norm(p), n);
  }

  lemma NormAllSnoc(prompts: seq<string>, p: string)
    ensures NormAll(prompts + [p]) == NormAll(prompts) + [Norm(p)]
  {
  }

  lemma LastNSnoc(s: seq<string>, x: string, n: nat)
    requires n >= 1
    ensures Slide(LastN(s, n), x, n) == LastN(s + [x], n)
  {
    if |s| < n {
      assert LastN(s, n) == s;
    } else {
      assert LastN(s, n) == s[|s| - n..];
      assert (s[|s| - n..] + [x])[1..] == (s + [x])[|s| + 1 - n..];
    }
  }

  lemma RepeatsIsFullWindow(prompts: seq<string>, n: nat)
    requires 1 <= n <= |prompts| && Repeats(prompts, |prompts|, n)
    ensures var window := LastN(NormAll(prompts), n);
            |window| == n && forall p :: p in window ==> p == Norm(prompts[|prompts| - 1])
  {
    var window := LastN(NormAll(prompts), n);
    forall p | p in window
      ensures p == Norm(prompts[|prompts| - 1])
    {
      var k :| 0 <= k < |window| && window[k] == p;
      assert window[k] == Norm(prompts[|prompts| - n + k]);
    }
  }

  lemma FullWindowIsRepeats(prompts: seq<string>, n: nat)
    requires 1 <= n <= |prompts|
    requires forall q :: q in LastN(NormAll(prompts), n) ==> q == Norm(prompts[|prompts| - 1])
    ensures Repeats(prompts, |prompts|, n)
  {
    var window := LastN(NormAll(prompts), n);
    forall j | |prompts| - n <= j < |prompts|
      ensures Norm(prompts[j]) == Norm(prompts[|prompts| - 1])
    {
      assert window[j - (|prompts| - n)] == Norm(prompts[j]);
      assert window[j - (|prompts| - n)] in window;
    }
  }

  /** The prompt would be the last of `threshold` many in a row that say the same. */
  ghost predicate RepeatsWith(limits: Limits, passed: seq<string>, p: string) {
    var n := limits.pingPongThreshold;
    1 <= n <= |passed| + 1 && Repeats(passed + [p], |passed| + 1, n)
  }

  /** When a check passes: there is a turn left, the clock has not run out, and the prompt does not complete a row of
      threshold-many that say the same; a threshold below one lets nothing pass. The reason given otherwise is the
      first of these that fails. */
  lemma CheckPassesIff(limits: Limits, g: GuardState, passed: seq<string>, p: string, elapsedMs: int)
    requires Tracks(limits, g, passed)
    ensures var (g', stop) := GuardCheck(limits, g, p, elapsedMs);
            && g'.turns == |passed| + 1
            && stop == if |passed| + 1 > limits.maxTurns then Some(HitMaxTurns(limits.maxTurns))
                       else if elapsedMs > limits.maxWallClockMin * 60_000 then
                         Some(HitWallClock(limits.maxWallClockMin))
                       else if limits.pingPongThreshold < 1 || RepeatsWith(limits, passed, p) then
                         Some(PingPong(limits.pingPongThreshold))
                       else None
  {
    var n := limits.pingPongThreshold;
    var all := passed + [p];
    if n >= 1 {
      SlideIsLastN(passed, p, n);
      var window := LastN(NormAll(all), n);
      assert all[|passed|] == p && |NormAll(all)| == |all|;
      if n <= |all| {
        if Repeats(all, |all|, n) { RepeatsIsFullWindow(all, n); }
        if forall q :: q in window ==> q == Norm(p) { FullWindowIsRepeats(all, n); }
      }
    }
  }

  /** Two prompts say the same when they have the same words of letters and digits, up to case. */
  lemma SamePromptIff(a: string, b: string)
    ensures Norm(a) == Norm(b) <==> Spoken(Lower(a)) == Spoken(Lower(b))
  {
    SpokenIs(a);
    SpokenIs(b);
    SameNormalForm(Lower(a), Lower(b), c => !IsWordChar(c));
  }

  /** The words of letters and digits. */
  function Spoken(s: string): seq<string> {
    Words(s, c => !('a' <= c <= 'z') && !('0' <= c <= '9'))
  }

  lemma SpokenIs(s: string)
    ensures Spoken(Lower(s)) == Words(Lower(s), c => !IsWordChar(c))
  {
    SameWords(Lower(s), c => !('a' <= c <= 'z') && !('0' <= c <= '9'), c => !IsWordChar(c));
  }

  lemma ExtendNoPingPong(prompts: seq<string>, p: string, n: nat)
    requires n >= 1 && NoPingPong(prompts, n)
    requires n <= |prompts| + 1 ==> !Repeats(prompts + [p], |prompts| + 1, n)
    ensures NoPingPong(prompts + [p], n)
  {
    var all := prompts + [p];
    forall end | n <= end <= |all|
      ensures !Repeats(all, end, n)
    {
      if end <= |prompts| {
        assert !Repeats(prompts, end, n);
        var j :| end - n <= j < end && Norm(prompts[j]) != Norm(prompts[end - 1]);
        assert all[j] == prompts[j] && all[end - 1] == prompts[end - 1];
      }
    }
  }

  /** A check that passes extends the tracked history by its prompt. */
  lemma PassExtendsHistory(limits: Limits, g: GuardState, passed: seq<string>, p: string, elapsedMs: int)
    requires Tracks(limits, g, passed)
    requires GuardCheck(limits, g, p, elapsedMs).1 == None
    ensures Tracks(limits, GuardCheck(limits, g, p, elapsedMs).0, passed + [p])
  {
    var n := limits.pingPongThreshold;
    var all := passed + [p];
    if n <= 0 {
      assert false;
    }
    SlideIsLastN(passed, p, n);
    assert all[|passed|] == p;
    if n <= |all| && Repeats(all, |all|, n) {
      RepeatsIsFullWindow(all, n);
      assert false;
    }
    ExtendNoPingPong(passed, p, n);
  }

  // ---- ... and of checks that need not pass ------------------------------------

  /** The window ends with the last `m` prompts that passed, if they say the same. */
  ghost predicate Ends(recent: seq<string>, passed: seq<string>, m: int)
    requires 1 <= m <= |passed|
  {
    Repeats(passed, |passed|, m) ==>
      && m <= |recent|
      && forall j :: |recent| - m <= j < |recent| ==> recent[j] == Norm(passed[|passed| - 1])
  }

  /** What the window knows of the prompts that passed, when others were blocked in between and pushed onto it. */
  ghost predicate Echoes(limits: Limits, g: GuardState, passed: seq<string>) {
    var n := limits.pingPongThreshold;
    if n >= 1 then
      && |g.recent| <= n && NoPingPong(passed, n)
      && forall m :: 1 <= m <= n && m <= |passed| ==> Ends(g.recent, passed, m)
    else g.recent == [] && passed == []
  }

  /** However many checks in between were blocked, no threshold-many prompts that passed one after another are the
      same. */
  lemma CheckKeepsEchoes(limits: Limits, g: GuardState, passed: seq<string>, p: string, elapsedMs: int)
    requires Echoes(limits, g, passed)
    ensures var (g', stop) := GuardCheck(limits, g, p, elapsedMs);
            Echoes(limits, g', if stop == None then passed + [p] else passed)
  {
    var n := limits.pingPongThreshold;
    var (g', stop) := GuardCheck(limits, g, p, elapsedMs);
    if stop == None {
      if n <= 0 { assert false; }
      PassEchoes(g.recent, g'.recent, passed, p, n);
    } else if n >= 1 && stop.value.PingPong? {
      BlockEchoes(g.recent, g'.recent, passed, Norm(p), n);
    }
  }

  lemma PassEchoes(recent: seq<string>, window: seq<string>, passed: seq<string>, p: string, n: nat)
    requires n >= 1 && |recent| <= n && NoPingPong(passed, n)
    requires forall m :: 1 <= m <= n && m <= |passed| ==> Ends(recent, passed, m)
    requires window == Slide(recent, Norm(p), n) && (|window| < n || exists q :: q in window && q != Norm(p))
    ensures |window| <= n && NoPingPong(passed + [p], n)
    ensures forall m :: 1 <= m <= n && m <= |passed| + 1 ==> Ends(window, passed + [p], m)
  {
    var all := passed + [p];
    forall m | 1 <= m <= n && m <= |all|
      ensures Ends(window, all, m)
    {
      if m > 1 && Repeats(all, |all|, m) {
        FewerRepeat(passed, p, m);
        assert Ends(recent, passed, m - 1);
      }
    }
    if n <= |all| { assert Ends(window, all, n); }
    ExtendNoPingPong(passed, p, n);
  }

  lemma OnceIsOneRepeat(prompts: seq<string>)
    requires prompts != []
    ensures !NoPingPong(prompts, 1)
  {
    assert Repeats(prompts, 1, 1);
  }

  lemma FewerRepeat(passed: seq<string>, p: string, m: int)
    requires 2 <= m <= |passed| + 1 && Repeats(passed + [p], |passed| + 1, m)
    ensures Repeats(passed, |passed|, m - 1) && Norm(passed[|passed| - 1]) == Norm(p)
  {
    var all := passed + [p];
    assert forall j :: 0 <= j < |passed| ==> all[j] == passed[j];
    assert Norm(all[|passed| - 1]) == Norm(all[|passed|]);
  }

  lemma BlockEchoes(recent: seq<string>, window: seq<string>, passed: seq<string>, q: string, n: nat)
    requires n >= 1 && |recent| <= n && NoPingPong(passed, n)
    requires forall m :: 1 <= m <= n && m <= |passed| ==> Ends(recent, passed, m)
    requires window == Slide(recent, q, n) && |window| >= n && forall x :: x in window ==> x == q
    ensures |window| <= n
    ensures forall m :: 1 <= m <= n && m <= |passed| ==> Ends(window, passed, m)
  {
    if passed != [] {
      var last := Norm(passed[|passed| - 1]);
      assert Repeats(passed, |passed|, 1) && Ends(recent, passed, 1);
      if n == 1 { OnceIsOneRepeat(passed); }
      assert window[|window| - 2] == recent[|recent| - 1] == last;
      assert last in window;
    }
    assert forall j :: 0 <= j < |window| ==> window[j] in window;
  }

  // ---- stall detection -------------------------------------------------------

  datatype StuckState = StuckState(lastFp: Option<string>, noChange: nat)

  const FRESH_STUCK := StuckState(None, 0)

  function StuckRecord(k: StuckState, fingerprint: string): StuckState {
    StuckState(Some(fingerprint), if k.lastFp == Some(fingerprint) then k.noChange + 1 else 0)
  }

  predicate IsStuck(k: StuckState, threshold: int) {
    threshold > 0 && k.noChange >= threshold
  }

  function StuckReset(k: StuckState): StuckState {
    k.(noChange := 0)
  }

  class StuckDetector {
    var lastFp: Option<string>
    var noChange: nat

    constructor ()
      ensures State() == FRESH_STUCK
    {
      lastFp := None;
      noChange := 0;
    }

    function State(): StuckState
      reads this
    {
      StuckState(lastFp, noChange)
    }

    method Record(fingerprint: string)
      modifies this
      ensures State() == StuckRecord(old(State()), fingerprint)
    {
      if lastFp.Some? && fingerprint == lastFp.value {
        noChange := noChange + 1;
      } else {
        noChange := 0;
      }
      lastFp := Some(fingerprint);
    }

    method Reset()
      modifies this
      ensures State() == StuckReset(old(State()))
    {
      noChange := 0;
    }
  }

  // ---- what a history of records and resets looks like -------------------------

  datatype StuckOp = Recorded(fingerprint: string) | WasReset

  function StuckAfter(ops: seq<StuckOp>): StuckState {
    if ops == [] then FRESH_STUCK
    else
      var before := StuckAfter(ops[..|ops| - 1]);
      match ops[|ops| - 1]
      case Recorded(fp) => StuckRecord(before, fp)
      case WasReset => StuckReset(before)
  }

  /** The fingerprints recorded, in order. */
  function Prints(ops: seq<StuckOp>): seq<string> {
    if ops == [] then []
    else
      var last := ops[|ops| - 1];
      Prints(ops[..|ops| - 1]) + if last.Recorded? then [last.fingerprint] else []
  }

  /** How many of them came after the last reset. */
  function SinceReset(ops: seq<StuckOp>): nat {
    if ops == [] || ops[|ops| - 1].WasReset? then 0 else 1 + SinceReset(ops[..|ops| - 1])
  }

  /** Each of the last `n` fingerprints equals the one recorded before it. */
  ghost predicate Unchanged(f: seq<string>, n: int) {
    |f| > n && forall i :: |f| - n <= i < |f| && 0 < i ==> f[i] == f[i - 1]
  }

  /** The detector fires exactly when the last `threshold` records all came after the last reset and each found the
      files as the record before it did, be that from before the reset. */
  lemma StuckMeansUnchanged(ops: seq<StuckOp>, threshold: int)
    requires threshold > 0
    ensures IsStuck(StuckAfter(ops), threshold) <==> SinceReset(ops) >= threshold && Unchanged(Prints(ops), threshold)
  {
    StreakIsMaximal(ops);
  }

  lemma {:induction false} StreakIsMaximal(ops: seq<StuckOp>)
    ensures var f, k := Prints(ops), StuckAfter(ops).noChange;
            && StuckAfter(ops).lastFp == (if f == [] then None else Some(f[|f| - 1]))
            && k <= SinceReset(ops) <= |f|
            && (f == [] || Unchanged(f, k))
            && (k < SinceReset(ops) ==> |f| - 1 - k >= 0 && (|f| - 1 - k > 0 ==> f[|f| - 1 - k] != f[|f| - 2 - k]))
  {
    if ops != [] {
      StreakIsMaximal(ops[..|ops| - 1]);
    }
  }
}
