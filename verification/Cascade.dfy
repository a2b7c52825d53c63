/** Automation cascades under the chain cap: `src/policy/automation.ts`, the hop the supervisor takes with it and
    its own restarts (`src/server/supervisor.ts`). A session carries one generation tag; every action on it
    overwrites the tag with the next generation, and every restart of its own sets it back to 0. */
module Cascade {
  import opened Text

  /** A stored generation, as a JavaScript number or nothing. */
  datatype Generation = Absent | NotFinite | Number(value: real)

  /** The generation of what an automation starts: one past the parent's, a root counting as 0. */
  function NextChainGen(parent: Generation): (gen: int)
    ensures gen >= 1
    ensures parent.Number? && parent.value >= 1.0 ==> gen as real <= parent.value + 1.0 < gen as real + 1.0
    ensures parent.Number? && parent.value < 1.0 ==> gen == 1
  {
    (if parent.Number? && parent.value > 0.0 then parent.value.Floor else 0) + 1
  }

  predicate OverChainCap(gen: int, cap: int) {
    cap > 0 && gen > cap
  }

  // ---- the cascade -----------------------------------------------------------

  /** A lifecycle event yet to fire: its session, and how many automation hops led to it. */
  datatype Event = Event(session: string, hops: nat)

  datatype State = State(gens: map<string, nat>, pending: seq<Event>)

  function GenOf(s: State, session: string): nat {
    if session in s.gens then s.gens[session] else 0
  }

  function NextGen(s: State, session: string): nat {
    NextChainGen(if session in s.gens then Number(s.gens[session] as real) else Absent)
  }

  /** One event fires: which one, the sessions its actions hit, and the sessions that will fire events as a result. */
  datatype Hop = Hop(index: nat, targets: set<string>, born: seq<string>)

  predicate CanFire(s: State, h: Hop, b: nat) {
    h.index < |s.pending| && |h.born| <= b && forall i :: 0 <= i < |h.born| ==> h.born[i] in h.targets
  }

  predicate Dropped(s: State, h: Hop, cap: int)
    requires h.index < |s.pending|
  {
    OverChainCap(NextGen(s, s.pending[h.index].session), cap)
  }

  function Without(xs: seq<Event>, i: nat): seq<Event>
    requires i < |xs|
  {
    xs[..i] + xs[i + 1..]
  }

  function Births(born: seq<string>, hops: nat): seq<Event> {
    seq(|born|, i requires 0 <= i < |born| => Event(born[i], hops))
  }

  /** Past the cap the batch is dropped; otherwise every target is tagged with the new generation. */
  function Fire(s: State, h: Hop, cap: int): State
    requires h.index < |s.pending|
  {
    var e := s.pending[h.index];
    var gen := NextGen(s, e.session);
    if Dropped(s, h, cap) then s.(pending := Without(s.pending, h.index))
    else State(s.gens + (map t | t in h.targets :: gen), Without(s.pending, h.index) + Births(h.born, e.hops + 1))
  }

  /** `hops` can fire one after another, each giving rise to at most `b` events. */
  predicate Legal(s: State, hops: seq<Hop>, cap: int, b: nat)
    decreases hops
  {
    hops == [] || (CanFire(s, hops[0], b) && Legal(Fire(s, hops[0], cap), hops[1..], cap, b))
  }

  function After(s: State, hops: seq<Hop>, cap: int, b: nat): State
    requires Legal(s, hops, cap, b)
    decreases hops
  {
    if hops == [] then s else After(Fire(s, hops[0], cap), hops[1..], cap, b)
  }

  /** Every event's actions hit the sessions that `hits` names for the event's session. */
  predicate Follows(s: State, hops: seq<Hop>, cap: int, b: nat, hits: string -> set<string>)
    requires Legal(s, hops, cap, b)
    decreases hops
  {
    hops == []
    || (hops[0].targets == hits(s.pending[hops[0].index].session)
        && Follows(Fire(s, hops[0], cap), hops[1..], cap, b, hits))
  }

  lemma NextGenIsOneMore(s: State, session: string)
    ensures NextGen(s, session) == GenOf(s, session) + 1
  {
    if session in s.gens {
      assert (s.gens[session] as real).Floor == s.gens[session];
    }
  }

  // ---- counting pending events by generation ---------------------------------

  function AtGen(gens: map<string, nat>, xs: seq<Event>, g: int): nat {
    if xs == [] then 0
    else AtGen(gens, xs[..|xs| - 1], g) + (if GenOf(State(gens, []), xs[|xs| - 1].session) == g then 1 else 0)
  }

  lemma {:induction false} AtGenAppend(gens: map<string, nat>, xs: seq<Event>, ys: seq<Event>, g: int)
    ensures AtGen(gens, xs + ys, g) == AtGen(gens, xs, g) + AtGen(gens, ys, g)
  {
    if ys == [] {
      assert xs + ys == xs;
    } else {
      var zs := xs + ys;
      assert zs[..|zs| - 1] == xs + ys[..|ys| - 1];
      AtGenAppend(gens, xs, ys[..|ys| - 1], g);
    }
  }

  lemma {:induction false} AtGenIsBounded(gens: map<string, nat>, xs: seq<Event>, g: int)
    ensures AtGen(gens, xs, g) <= |xs|
    ensures (exists i :: 0 <= i < |xs| && GenOf(State(gens, []), xs[i].session) == g) ==> AtGen(gens, xs, g) >= 1
  {
    if xs != [] {
      AtGenIsBounded(gens, xs[..|xs| - 1], g);
      assert forall i :: 0 <= i < |xs| - 1 ==> xs[..|xs| - 1][i] == xs[i];
    }
  }

  /** Retagging some sessions with another generation than `g` adds nothing at `g`. */
  lemma {:induction false} RetaggingOnlyLowers(gens: map<string, nat>, targets: set<string>, gen: nat, xs: seq<Event>,
                                               g: int)
    requires gen != g
    ensures AtGen(gens + (map t | t in targets :: gen), xs, g) <= AtGen(gens, xs, g)
  {
    if xs != [] {
      RetaggingOnlyLowers(gens, targets, gen, xs[..|xs| - 1], g);
    }
  }

  lemma {:induction false} BirthsAreElsewhere(gens: map<string, nat>, targets: set<string>, gen: nat, born: seq<string>,
                                              hops: nat, g: int)
    requires gen != g && forall i :: 0 <= i < |born| ==> born[i] in targets
    ensures AtGen(gens + (map t | t in targets :: gen), Births(born, hops), g) == 0
  {
    if born != [] {
      var init := born[..|born| - 1];
      assert Births(born, hops)[..|born| - 1] == Births(init, hops);
      BirthsAreElsewhere(gens, targets, gen, init, hops, g);
    }
  }

  lemma RemovalCounts(gens: map<string, nat>, xs: seq<Event>, i: nat, g: int)
    requires i < |xs|
    ensures AtGen(gens, xs, g)
            == AtGen(gens, Without(xs, i), g) + (if GenOf(State(gens, []), xs[i].session) == g then 1 else 0)
  {
    assert xs == xs[..i] + ([xs[i]] + xs[i + 1..]);
    AtGenAppend(gens, xs[..i], [xs[i]] + xs[i + 1..], g);
    AtGenAppend(gens, [xs[i]], xs[i + 1..], g);
    AtGenAppend(gens, xs[..i], xs[i + 1..], g);
    assert [xs[i]][..0] == [];
    assert AtGen(gens, [xs[i]], g) == if GenOf(State(gens, []), xs[i].session) == g then 1 else 0;
  }

  /** A hop from generation `g` or above never adds an event at `g`; one from `g` itself removes one. */
  lemma FireAtOrAbove(s: State, h: Hop, cap: int, b: nat, g: nat)
    requires CanFire(s, h, b)
    requires GenOf(s, s.pending[h.index].session) >= g
    ensures |Fire(s, h, cap).pending| <= |s.pending| - 1 + b
    ensures Dropped(s, h, cap) ==> |Fire(s, h, cap).pending| == |s.pending| - 1
    ensures AtGen(Fire(s, h, cap).gens, Fire(s, h, cap).pending, g)
            + (if GenOf(s, s.pending[h.index].session) == g then 1 else 0)
            <= AtGen(s.gens, s.pending, g)
  {
    var e := s.pending[h.index];
    RemovalCounts(s.gens, s.pending, h.index, g);
    NextGenIsOneMore(s, e.session);
    if !Dropped(s, h, cap) {
      var gens' := s.gens + (map t | t in h.targets :: NextGen(s, e.session));
      AtGenAppend(gens', Without(s.pending, h.index), Births(h.born, e.hops + 1), g);
      RetaggingOnlyLowers(s.gens, h.targets, NextGen(s, e.session), Without(s.pending, h.index), g);
      BirthsAreElsewhere(s.gens, h.targets, NextGen(s, e.session), h.born, e.hops + 1, g);
    }
  }

  // ---- every cascade halts ---------------------------------------------------

  /** How many events can fire when all fire at generation `g` or above, `p` being pending. */
  function Bound(cap: nat, b: nat, g: nat, p: nat): nat
    decreases if g < cap then cap - g else 0, 1, 0
  {
    if g >= cap then p else BoundAt(cap, b, g, p, p)
  }

  /** ... of which at most `k` at `g` itself. */
  function BoundAt(cap: nat, b: nat, g: nat, k: nat, p: nat): nat
    requires g < cap
    decreases cap - g, 0, k
  {
    var above := Bound(cap, b, g + 1, p);
    if k == 0 then above else above + 1 + BoundAt(cap, b, g, k - 1, p + b * above + b)
  }

  lemma TimesGrows(b: nat, x: nat, y: nat)
    requires x <= y
    ensures b * x <= b * y
  {
  }

  lemma TimesNext(b: nat, n: nat)
    ensures b * (n + 1) == b * n + b
  {
  }

  lemma {:induction false} BoundGrows(cap: nat, b: nat, g: nat, p: nat, q: nat)
    requires p <= q
    ensures Bound(cap, b, g, p) <= Bound(cap, b, g, q)
    decreases if g < cap then cap - g else 0, 1, 0
  {
    if g < cap { BoundAtGrows(cap, b, g, p, q, p, q); }
  }

  lemma {:induction false} BoundAtGrows(cap: nat, b: nat, g: nat, k: nat, l: nat, p: nat, q: nat)
    requires g < cap && k <= l && p <= q
    ensures BoundAt(cap, b, g, k, p) <= BoundAt(cap, b, g, l, q)
    decreases cap - g, 0, l
  {
    BoundGrows(cap, b, g + 1, p, q);
    var x, y := Bound(cap, b, g + 1, p), Bound(cap, b, g + 1, q);
    TimesGrows(b, x, y);
    if k > 0 {
      BoundAtGrows(cap, b, g, k - 1, l - 1, p + b * x + b, q + b * y + b);
    }
  }

  /** Every hop of the run fires an event of generation `g` or above. */
  predicate AllAbove(s: State, hops: seq<Hop>, cap: int, b: nat, g: nat)
    requires Legal(s, hops, cap, b)
    decreases hops
  {
    hops == [] ||
    (GenOf(s, s.pending[hops[0].index].session) >= g && AllAbove(Fire(s, hops[0], cap), hops[1..], cap, b, g))
  }

  /** Split a run where the first event of generation `g` itself fires: the lead stays above `g`, brings at most
      `b` new events a hop, and none at `g`. */
  lemma {:induction false} SplitRun(s: State, hops: seq<Hop>, cap: int, b: nat, g: nat)
    returns (lead: seq<Hop>, mid: State, rest: seq<Hop>)
    requires Legal(s, hops, cap, b) && AllAbove(s, hops, cap, b, g)
    ensures |hops| == |lead| + |rest|
    ensures Legal(s, lead, cap, b) && AllAbove(s, lead, cap, b, g + 1)
    ensures Legal(mid, rest, cap, b) && AllAbove(mid, rest, cap, b, g)
    ensures rest != [] ==> GenOf(mid, mid.pending[rest[0].index].session) == g
    ensures |mid.pending| <= |s.pending| + b * |lead|
    ensures AtGen(mid.gens, mid.pending, g) <= AtGen(s.gens, s.pending, g)
    decreases hops
  {
    if hops == [] || GenOf(s, s.pending[hops[0].index].session) == g {
      lead, mid, rest := [], s, hops;
    } else {
      FireAtOrAbove(s, hops[0], cap, b, g);
      var more: seq<Hop>;
      more, mid, rest := SplitRun(Fire(s, hops[0], cap), hops[1..], cap, b, g);
      lead := [hops[0]] + more;
      assert lead[1..] == more;
      TimesNext(b, |more|);
    }
  }

  /** At the cap every hop is a drop. */
  lemma {:induction false} DropsRunOut(s: State, hops: seq<Hop>, cap: nat, b: nat, g: nat)
    requires 0 < cap <= g && Legal(s, hops, cap, b) && AllAbove(s, hops, cap, b, g)
    ensures |hops| <= |s.pending|
    decreases hops
  {
    if hops != [] {
      NextGenIsOneMore(s, s.pending[hops[0].index].session);
      FireAtOrAbove(s, hops[0], cap, b, g);
      DropsRunOut(Fire(s, hops[0], cap), hops[1..], cap, b, g);
    }
  }

  lemma {:induction false} RunAbove(s: State, hops: seq<Hop>, cap: nat, b: nat, g: nat)
    requires cap > 0 && Legal(s, hops, cap, b) && AllAbove(s, hops, cap, b, g)
    ensures |hops| <= Bound(cap, b, g, |s.pending|)
    decreases if g < cap then cap - g else 0, 1, 0
  {
    if g >= cap {
      DropsRunOut(s, hops, cap, b, g);
    } else {
      AtGenIsBounded(s.gens, s.pending, g);
      RunAboveWith(s, hops, cap, b, g, |s.pending|);
    }
  }

  lemma {:induction false} RunAboveWith(s: State, hops: seq<Hop>, cap: nat, b: nat, g: nat, k: nat)
    requires g < cap && Legal(s, hops, cap, b) && AllAbove(s, hops, cap, b, g)
    requires AtGen(s.gens, s.pending, g) <= k
    ensures |hops| <= BoundAt(cap, b, g, k, |s.pending|)
    decreases cap - g, 0, k
  {
    var lead, mid, rest := SplitRun(s, hops, cap, b, g);
    RunAbove(s, lead, cap, b, g + 1);
    if rest != [] {
      var next := FireAt(mid, rest, cap, b, g);
      RunAboveWith(next, rest[1..], cap, b, g, k - 1);
      BoundStep(cap, b, g, k, |s.pending|, |lead|, |next.pending|);
    }
  }

  lemma FireAt(s: State, hops: seq<Hop>, cap: int, b: nat, g: nat) returns (next: State)
    requires Legal(s, hops, cap, b) && AllAbove(s, hops, cap, b, g) && hops != []
    requires GenOf(s, s.pending[hops[0].index].session) == g
    ensures Legal(next, hops[1..], cap, b) && AllAbove(next, hops[1..], cap, b, g)
    ensures |next.pending| <= |s.pending| + b
    ensures AtGen(next.gens, next.pending, g) + 1 <= AtGen(s.gens, s.pending, g)
  {
    FireAtOrAbove(s, hops[0], cap, b, g);
    next := Fire(s, hops[0], cap);
  }

  lemma BoundStep(cap: nat, b: nat, g: nat, k: nat, p: nat, lead: nat, q: nat)
    requires g < cap && k > 0 && lead <= Bound(cap, b, g + 1, p) && q <= p + b * lead + b
    ensures lead + 1 + BoundAt(cap, b, g, k - 1, q) <= BoundAt(cap, b, g, k, p)
  {
    var above := Bound(cap, b, g + 1, p);
    TimesGrows(b, lead, above);
    BoundAtGrows(cap, b, g, k - 1, k - 1, q, p + b * above + b);
  }

  lemma {:induction false} EverythingIsAboveZero(s: State, hops: seq<Hop>, cap: int, b: nat)
    requires Legal(s, hops, cap, b)
    ensures AllAbove(s, hops, cap, b, 0)
    decreases hops
  {
    if hops != [] { EverythingIsAboveZero(Fire(s, hops[0], cap), hops[1..], cap, b); }
  }

  /** As long as nothing restarts by itself, events that only hop run out, however sessions are retagged. */
  lemma HopsRunOut(s: State, hops: seq<Hop>, cap: nat, b: nat)
    requires cap > 0 && Legal(s, hops, cap, b)
    ensures |hops| <= Bound(cap, b, 0, |s.pending|)
  {
    EverythingIsAboveZero(s, hops, cap, b);
    RunAbove(s, hops, cap, b, 0);
  }

  lemma {:induction false} PendingGrows(s: State, hops: seq<Hop>, cap: int, b: nat)
    requires Legal(s, hops, cap, b)
    ensures |After(s, hops, cap, b).pending| <= |s.pending| + b * |hops|
    decreases hops
  {
    if hops != [] {
      PendingGrows(Fire(s, hops[0], cap), hops[1..], cap, b);
      TimesNext(b, |hops[1..]|);
    }
  }

  // ---- restarts --------------------------------------------------------------

  /** What can happen to the fleet: an event fires, or the supervisor starts a session without a generation - resumed
      after a usage limit, healed after an error, or released by a finished dependency. Such a start tags the session
      with 0 and may lead to further events, whose chain may already have any length. */
  datatype Step = Fires(hop: Hop) | Restarts(session: string, born: nat, hops: nat)

  predicate CanStep(s: State, step: Step, b: nat) {
    match step
    case Fires(hop) => CanFire(s, hop, b)
    case Restarts(_, born, _) => born <= b
  }

  function Take(s: State, step: Step, cap: int): State
    requires step.Fires? ==> step.hop.index < |s.pending|
  {
    match step
    case Fires(hop) => Fire(s, hop, cap)
    case Restarts(x, born, hops) => State(s.gens[x := 0], s.pending + seq(born, _ => Event(x, hops)))
  }

  predicate LegalSteps(s: State, steps: seq<Step>, cap: int, b: nat)
    decreases steps
  {
    steps == [] || (CanStep(s, steps[0], b) && LegalSteps(Take(s, steps[0], cap), steps[1..], cap, b))
  }

  function AfterSteps(s: State, steps: seq<Step>, cap: int, b: nat): State
    requires LegalSteps(s, steps, cap, b)
    decreases steps
  {
    if steps == [] then s else AfterSteps(Take(s, steps[0], cap), steps[1..], cap, b)
  }

  predicate FollowsSteps(s: State, steps: seq<Step>, cap: int, b: nat, hits: string -> set<string>)
    requires LegalSteps(s, steps, cap, b)
    decreases steps
  {
    steps == []
    || ((steps[0].Fires? ==> steps[0].hop.targets == hits(s.pending[steps[0].hop.index].session))
        && FollowsSteps(Take(s, steps[0], cap), steps[1..], cap, b, hits))
  }

  function HopCount(steps: seq<Step>): nat {
    if steps == [] then 0 else (if steps[0].Fires? then 1 else 0) + HopCount(steps[1..])
  }

  function RestartCount(steps: seq<Step>): nat {
    if steps == [] then 0 else (if steps[0].Restarts? then 1 else 0) + RestartCount(steps[1..])
  }

  /** The hops before the first restart. */
  lemma {:induction false} LeadingHops(s: State, steps: seq<Step>, cap: int, b: nat)
    returns (hops: seq<Hop>, mid: State, rest: seq<Step>)
    requires LegalSteps(s, steps, cap, b)
    ensures Legal(s, hops, cap, b) && mid == After(s, hops, cap, b) && LegalSteps(mid, rest, cap, b)
    ensures HopCount(steps) == |hops| + HopCount(rest) && RestartCount(steps) == RestartCount(rest)
    ensures |rest| <= |steps| && (rest != [] ==> rest[0].Restarts?)
    decreases steps
  {
    if steps == [] || steps[0].Restarts? {
      hops, mid, rest := [], s, steps;
    } else {
      var more: seq<Hop>;
      more, mid, rest := LeadingHops(Take(s, steps[0], cap), steps[1..], cap, b);
      hops := [steps[0].hop] + more;
      assert hops[1..] == more;
    }
  }

  /** How many events can fire when the supervisor restarts sessions at most `r` times, `p` events being pending. */
  function BoundWith(cap: nat, b: nat, r: nat, p: nat): nat
    decreases r
  {
    var lead := Bound(cap, b, 0, p);
    if r == 0 then lead else lead + BoundWith(cap, b, r - 1, p + b * lead + b)
  }

  lemma {:induction false} BoundWithGrows(cap: nat, b: nat, r: nat, p: nat, q: nat)
    requires p <= q
    ensures BoundWith(cap, b, r, p) <= BoundWith(cap, b, r, q)
    decreases r
  {
    BoundGrows(cap, b, 0, p, q);
    if r > 0 {
      var x, y := Bound(cap, b, 0, p), Bound(cap, b, 0, q);
      TimesGrows(b, x, y);
      BoundWithGrows(cap, b, r - 1, p + b * x + b, q + b * y + b);
    }
  }

  /** With a positive cap and at most `r` restarts every cascade ends after a number of hops fixed beforehand,
      whatever the rules and however running sessions are retagged. */
  lemma {:induction false} CascadesHalt(s: State, steps: seq<Step>, cap: nat, b: nat, r: nat)
    requires cap > 0 && LegalSteps(s, steps, cap, b) && RestartCount(steps) <= r
    ensures HopCount(steps) <= BoundWith(cap, b, r, |s.pending|)
    decreases |steps|, r
  {
    var hops, mid, rest := LeadingHops(s, steps, cap, b);
    var lead := Bound(cap, b, 0, |s.pending|);
    HopsRunOut(s, hops, cap, b);
    if rest != [] {
      PendingGrows(s, hops, cap, b);
      TimesGrows(b, |hops|, lead);
      var next := Take(mid, rest[0], cap);
      CascadesHalt(next, rest[1..], cap, b, r - 1);
      BoundWithGrows(cap, b, r - 1, |next.pending|, |s.pending| + b * lead + b);
    }
  }

  /** If nothing an action hits ever fires, only the events already pending can. */
  lemma {:induction false} BarrenRunsOut(s: State, steps: seq<Step>, cap: int)
    requires LegalSteps(s, steps, cap, 0)
    ensures HopCount(steps) <= |s.pending|
    decreases steps
  {
    if steps != [] { BarrenRunsOut(Take(s, steps[0], cap), steps[1..], cap); }
  }

  // ---- running on ------------------------------------------------------------

  const ROOT := State(map[], [Event("a", 0)])

  /** Every session's events act on the session itself. */
  const ITSELF: string -> set<string> := x => {x}

  lemma ClimbOnce(s: State, x: string, cap: int)
    requires |s.pending| > 0 && s.pending[|s.pending| - 1].session == x
    requires cap <= 0 || GenOf(s, x) + 1 <= cap
    ensures var last := |s.pending| - 1;
            var next := Fire(s, Hop(last, {x}, [x]), cap);
            && |next.pending| == last + 1 && next.pending[..last] == s.pending[..last]
            && next.pending[last] == Event(x, s.pending[last].hops + 1)
            && GenOf(next, x) == GenOf(s, x) + 1
            && forall y :: y != x ==> GenOf(next, y) == GenOf(s, y)
  {
    NextGenIsOneMore(s, x);
  }

  lemma StepThen(s: State, step: Step, more: seq<Step>, cap: int, b: nat, hits: string -> set<string>)
    requires CanStep(s, step, b) && LegalSteps(Take(s, step, cap), more, cap, b)
    requires step.Fires? ==> step.hop.targets == hits(s.pending[step.hop.index].session)
    requires FollowsSteps(Take(s, step, cap), more, cap, b, hits)
    ensures LegalSteps(s, [step] + more, cap, b) && FollowsSteps(s, [step] + more, cap, b, hits)
    ensures AfterSteps(s, [step] + more, cap, b) == AfterSteps(Take(s, step, cap), more, cap, b)
    ensures HopCount([step] + more) == HopCount(more) + (if step.Fires? then 1 else 0)
    ensures RestartCount([step] + more) == RestartCount(more) + (if step.Restarts? then 1 else 0)
  {
    assert ([step] + more)[1..] == more;
  }

  /** Session `x` acting on itself `n` times, restarted whenever its generation is at the cap. */
  lemma {:induction false} RunOn(s: State, x: string, cap: int, b: nat, n: nat) returns (steps: seq<Step>)
    requires b >= 1 && |s.pending| == 1 && s.pending[0].session == x
    requires cap > 0 ==> GenOf(s, x) <= cap
    ensures LegalSteps(s, steps, cap, b) && HopCount(steps) == n && FollowsSteps(s, steps, cap, b, ITSELF)
    ensures AfterSteps(s, steps, cap, b).pending == [Event(x, s.pending[0].hops + n)]
    ensures if cap > 0 && n > 0 then RestartCount(steps) * cap < GenOf(s, x) + n else RestartCount(steps) == 0
    decreases n
  {
    if n == 0 {
      steps := [];
    } else if cap > 0 && GenOf(s, x) == cap {
      var restart := Restarts(x, 0, 0);
      var again := Take(s, restart, cap);
      var more := OnceMore(again, x, cap, b, n);
      steps := [restart] + more;
      StepThen(s, restart, more, cap, b, ITSELF);
    } else {
      steps := OnceMore(s, x, cap, b, n);
    }
  }

  lemma {:induction false} OnceMore(s: State, x: string, cap: int, b: nat, n: nat) returns (steps: seq<Step>)
    requires b >= 1 && n >= 1 && |s.pending| == 1 && s.pending[0].session == x
    requires cap > 0 ==> GenOf(s, x) < cap
    ensures LegalSteps(s, steps, cap, b) && HopCount(steps) == n && FollowsSteps(s, steps, cap, b, ITSELF)
    ensures AfterSteps(s, steps, cap, b).pending == [Event(x, s.pending[0].hops + n)]
    ensures if cap > 0 then RestartCount(steps) * cap < GenOf(s, x) + n else RestartCount(steps) == 0
    decreases n, 0
  {
    var hop := Hop(0, {x}, [x]);
    ClimbOnce(s, x, cap);
    var more := RunOn(Fire(s, hop, cap), x, cap, b, n - 1);
    steps := [Fires(hop)] + more;
    StepThen(s, Fires(hop), more, cap, b, ITSELF);
  }

  /** One restart after every `cap` hops keeps a single chain going for ever; one alone takes it past the cap. */
  lemma RestartsDefeatTheCap(cap: nat, b: nat, n: nat)
    requires cap > 0 && b >= 1 && n > 0
    ensures exists steps :: LegalSteps(ROOT, steps, cap, b) && HopCount(steps) == n
                         && FollowsSteps(ROOT, steps, cap, b, ITSELF)
                         && RestartCount(steps) * cap < n && (n == cap + 1 ==> RestartCount(steps) <= 1)
                         && AfterSteps(ROOT, steps, cap, b).pending == [Event("a", n)]
  {
    var steps := RunOn(ROOT, "a", cap, b, n);
    var r := RestartCount(steps);
    if r >= 2 {
      TimesGrows(cap, 2, r);
      assert cap * r == r * cap;
    }
  }

  // ---- exactly when cascades halt --------------------------------------------

  predicate WithinLimit(steps: seq<Step>, restarts: Option<nat>) {
    restarts.Some? ==> RestartCount(steps) <= restarts.value
  }

  ghost predicate BoundedBy(s: State, cap: int, b: nat, restarts: Option<nat>, bound: nat) {
    forall steps :: LegalSteps(s, steps, cap, b) && WithinLimit(steps, restarts) ==> HopCount(steps) <= bound
  }

  /** Some number of hops is never passed from here on. */
  ghost predicate Halts(s: State, cap: int, b: nat, restarts: Option<nat>) {
    exists bound: nat :: BoundedBy(s, cap, b, restarts, bound)
  }

  /** Cascades halt from every state if and only if actions lead to no events at all, or the cap is on and the number
      of restarts is limited. */
  lemma CascadesHaltIff(cap: int, b: nat, restarts: Option<nat>)
    ensures (forall s :: Halts(s, cap, b, restarts)) <==> b == 0 || (cap > 0 && restarts.Some?)
  {
    if b == 0 {
      forall s
        ensures Halts(s, cap, b, restarts)
      {
        forall steps | LegalSteps(s, steps, cap, b)
          ensures HopCount(steps) <= |s.pending|
        {
          BarrenRunsOut(s, steps, cap);
        }
        assert BoundedBy(s, cap, b, restarts, |s.pending|);
      }
    } else if cap > 0 && restarts.Some? {
      forall s
        ensures Halts(s, cap, b, restarts)
      {
        var bound := BoundWith(cap, b, restarts.value, |s.pending|);
        forall steps | LegalSteps(s, steps, cap, b) && WithinLimit(steps, restarts)
          ensures HopCount(steps) <= bound
        {
          CascadesHalt(s, steps, cap, b, restarts.value);
        }
        assert BoundedBy(s, cap, b, restarts, bound);
      }
    } else {
      RootRunsOn(cap, b, restarts);
    }
  }

  lemma RootRunsOn(cap: int, b: nat, restarts: Option<nat>)
    requires b >= 1 && (cap <= 0 || restarts == None)
    ensures !Halts(ROOT, cap, b, restarts)
  {
    forall bound: nat
      ensures !BoundedBy(ROOT, cap, b, restarts, bound)
    {
      var steps := RunOn(ROOT, "a", cap, b, bound + 1);
      assert WithinLimit(steps, restarts) && HopCount(steps) > bound;
    }
  }
}
