/** How long causal chains of automation hops can get: `src/policy/automation.ts` promises at most `cap`. */
module ChainCap {
  import opened Cascade

  /** No tag understates how many hops led to an event. */
  ghost predicate Honest(s: State) {
    forall i :: 0 <= i < |s.pending| ==> s.pending[i].hops <= GenOf(s, s.pending[i].session)
  }

  ghost predicate WithinCap(s: State, cap: int) {
    forall i :: 0 <= i < |s.pending| ==> s.pending[i].hops <= cap
  }

  lemma PendingAfter(s: State, h: Hop, cap: int, b: nat)
    requires CanFire(s, h, b)
    ensures var next, kept := Fire(s, h, cap), |s.pending| - 1;
            && |next.pending| == kept + (if Dropped(s, h, cap) then 0 else |h.born|)
            && (forall j :: 0 <= j < kept ==> next.pending[j] == s.pending[if j < h.index then j else j + 1])
            && (forall j :: kept <= j < |next.pending| ==>
                  next.pending[j] == Event(h.born[j - kept], s.pending[h.index].hops + 1))
  {
  }

  lemma GenAfter(s: State, h: Hop, cap: int, x: string)
    requires h.index < |s.pending|
    ensures GenOf(Fire(s, h, cap), x) ==
            if !Dropped(s, h, cap) && x in h.targets then GenOf(s, s.pending[h.index].session) + 1 else GenOf(s, x)
  {
    NextGenIsOneMore(s, s.pending[h.index].session);
  }

  // ---- the cases in which chains stay within the cap --------------------------

  /** What keeps chains within the cap: nothing is born; or the cap is 1; or only one event is ever pending; or the
      cap is 2 and no pending event belongs to a session of generation 0 except, at first, a single one. */
  ghost predicate Guarded(s: State, cap: int, b: nat) {
    || (b == 0 && forall i :: 0 <= i < |s.pending| ==> s.pending[i].hops == 0)
    || cap == 1
    || (b == 1 && |s.pending| <= 1)
    || (cap == 2 && (|s.pending| <= 1 || forall i :: 0 <= i < |s.pending| ==> GenOf(s, s.pending[i].session) >= 1))
  }

  /** In all of them no pending chain is tagged down below its length. */
  lemma GuardedTagsNoneDown(s: State, h: Hop, cap: int, b: nat, i: nat)
    requires cap > 0 && Guarded(s, cap, b) && Honest(s) && WithinCap(s, cap) && CanFire(s, h, b)
    requires !Dropped(s, h, cap) && i < |s.pending| && i != h.index
    ensures s.pending[i].hops <= GenOf(s, s.pending[h.index].session) + 1
  {
    NextGenIsOneMore(s, s.pending[h.index].session);
  }

  lemma HonestAfter(s: State, h: Hop, cap: int, b: nat)
    requires cap > 0 && Guarded(s, cap, b) && Honest(s) && WithinCap(s, cap) && CanFire(s, h, b)
    ensures Honest(Fire(s, h, cap)) && WithinCap(Fire(s, h, cap), cap)
  {
    var next, kept := Fire(s, h, cap), |s.pending| - 1;
    PendingAfter(s, h, cap, b);
    NextGenIsOneMore(s, s.pending[h.index].session);
    forall j | 0 <= j < |next.pending|
      ensures next.pending[j].hops <= GenOf(next, next.pending[j].session) && next.pending[j].hops <= cap
    {
      GenAfter(s, h, cap, next.pending[j].session);
      if j < kept && !Dropped(s, h, cap) {
        GuardedTagsNoneDown(s, h, cap, b, if j < h.index then j else j + 1);
      }
    }
  }

  lemma GuardedAfter(s: State, h: Hop, cap: int, b: nat)
    requires cap > 0 && Guarded(s, cap, b) && CanFire(s, h, b)
    ensures Guarded(Fire(s, h, cap), cap, b)
  {
    var next := Fire(s, h, cap);
    PendingAfter(s, h, cap, b);
    forall j | 0 <= j < |next.pending|
      ensures (|s.pending| <= 1 || forall i :: 0 <= i < |s.pending| ==> GenOf(s, s.pending[i].session) >= 1) ==>
                GenOf(next, next.pending[j].session) >= 1
    {
      GenAfter(s, h, cap, next.pending[j].session);
    }
  }

  lemma {:induction false} GuardedStaysWithin(s: State, hops: seq<Hop>, cap: int, b: nat)
    requires cap > 0 && Legal(s, hops, cap, b) && Guarded(s, cap, b) && Honest(s) && WithinCap(s, cap)
    ensures WithinCap(After(s, hops, cap, b), cap)
    decreases hops
  {
    if hops != [] {
      HonestAfter(s, hops[0], cap, b);
      GuardedAfter(s, hops[0], cap, b);
      GuardedStaysWithin(Fire(s, hops[0], cap), hops[1..], cap, b);
    }
  }

  // ---- the others: a chain that passes the cap ---------------------------------

  /** Session `x` acting on itself `n` times; its event is the last one pending. */
  lemma {:induction false} Climb(s: State, x: string, cap: int, b: nat, n: nat, hits: string -> set<string>)
    returns (hops: seq<Hop>)
    requires b >= 1 && |s.pending| > 0 && s.pending[|s.pending| - 1].session == x && hits(x) == {x}
    requires cap <= 0 || GenOf(s, x) + n <= cap
    ensures |hops| == n && Legal(s, hops, cap, b) && Follows(s, hops, cap, b, hits)
    ensures var last, end := |s.pending| - 1, After(s, hops, cap, b);
            && |end.pending| == last + 1 && end.pending[..last] == s.pending[..last]
            && end.pending[last] == Event(x, s.pending[last].hops + n)
            && GenOf(end, x) == GenOf(s, x) + n
            && forall y :: y != x ==> GenOf(end, y) == GenOf(s, y)
    decreases n
  {
    if n == 0 {
      hops := [];
    } else {
      var h := Hop(|s.pending| - 1, {x}, [x]);
      ClimbOnce(s, x, cap);
      var rest := Climb(Fire(s, h, cap), x, cap, b, n - 1, hits);
      hops := [h] + rest;
      assert hops[1..] == rest;
    }
  }

  /** Chains of every length up to the cap do occur; with the cap off, of every length. */
  lemma ChainsOfEveryAllowedLength(cap: int, n: nat)
    requires cap <= 0 || n <= cap
    ensures exists hops ::
              && |hops| == n && Legal(ROOT, hops, cap, 1) && Follows(ROOT, hops, cap, 1, ITSELF)
              && After(ROOT, hops, cap, 1).pending == [Event("a", n)]
  {
    var hops := Climb(ROOT, "a", cap, 1, n, ITSELF);
  }

  /** The last event's chain is as long as the cap; another session, two generations below it, tags it down. */
  lemma TagDownAndGoOn(s: State, x: string, cap: int, b: nat, hits: string -> set<string>) returns (hops: seq<Hop>)
    requires b >= 1 && |s.pending| >= 2 && hits(x) == hits(s.pending[0].session) == {x}
    requires var last := s.pending[|s.pending| - 1]; last.session == x && last.hops == cap
    requires s.pending[0].session != x && GenOf(s, s.pending[0].session) + 2 <= cap
    ensures Legal(s, hops, cap, b) && Follows(s, hops, cap, b, hits) && !WithinCap(After(s, hops, cap, b), cap)
  {
    var down := Hop(0, {x}, []);
    NextGenIsOneMore(s, s.pending[0].session);
    var next := Fire(s, down, cap);
    PendingAfter(s, down, cap, b);
    GenAfter(s, down, cap, x);
    var further := Climb(next, x, cap, b, 1, hits);
    hops := [down] + further;
    assert hops[1..] == further;
    var end := After(next, further, cap, b);
    assert end.pending[|end.pending| - 1].hops == cap + 1;
  }

  /** After `start`, which leaves the event of `b` last, that session climbs to the cap and is tagged down. */
  lemma StartAndPass(s: State, start: Hop, cap: nat, b: nat, hits: string -> set<string>) returns (hops: seq<Hop>)
    requires cap >= 2 && b >= 1 && CanFire(s, start, b) && !Dropped(s, start, cap)
    requires start.targets == hits(s.pending[start.index].session) && hits("b") == {"b"}
    requires var next := Fire(s, start, cap);
             && |next.pending| >= 2 && next.pending[|next.pending| - 1] == Event("b", 1) && GenOf(next, "b") == 1
             && next.pending[0].session != "b" && GenOf(next, next.pending[0].session) + 2 <= cap
             && hits(next.pending[0].session) == {"b"}
    ensures Legal(s, hops, cap, b) && Follows(s, hops, cap, b, hits) && !WithinCap(After(s, hops, cap, b), cap)
  {
    var next := Fire(s, start, cap);
    var up := Climb(next, "b", cap, b, cap - 1, hits);
    var mid := After(next, up, cap, b);
    assert mid.pending[0] == mid.pending[..|next.pending| - 1][0] == next.pending[0];
    var on := TagDownAndGoOn(mid, "b", cap, b, hits);
    Append(next, up, on, cap, b, hits);
    hops := [start] + (up + on);
    assert hops[1..] == up + on;
  }

  lemma {:induction false} Append(s: State, first: seq<Hop>, second: seq<Hop>, cap: int, b: nat,
                                  hits: string -> set<string>)
    requires Legal(s, first, cap, b) && Legal(After(s, first, cap, b), second, cap, b)
    requires Follows(s, first, cap, b, hits) && Follows(After(s, first, cap, b), second, cap, b, hits)
    ensures Legal(s, first + second, cap, b) && Follows(s, first + second, cap, b, hits)
    ensures After(s, first + second, cap, b) == After(After(s, first, cap, b), second, cap, b)
    decreases first
  {
    if first == [] {
      assert first + second == second;
    } else {
      assert (first + second)[1..] == first[1..] + second;
      Append(Fire(s, first[0], cap), first[1..], second, cap, b, hits);
    }
  }

  // ---- exactly when ----------------------------------------------------------

  /** `p` events of sessions that no automation has touched yet. */
  ghost predicate Roots(s: State, p: nat) {
    s.gens == map[] && |s.pending| == p && forall i :: 0 <= i < p ==> s.pending[i].hops == 0
  }

  function SameRoots(p: nat): State {
    State(map[], seq(p, _ => Event("a", 0)))
  }

  ghost predicate StaysWithin(cap: int, b: nat, p: nat) {
    forall s, hops :: Roots(s, p) && Legal(s, hops, cap, b) ==> WithinCap(After(s, hops, cap, b), cap)
  }

  /** From `p` root events, each action leading to at most `b` events, causal chains are sure to stay within a positive
      cap if and only if there is nothing to branch, or the cap is 1, or there is one root and either no branching or
      a cap of 2. No restart is counted here: one is enough to pass any cap. */
  lemma ChainsStayWithinTheCapIff(cap: int, b: nat, p: nat)
    requires cap > 0
    ensures StaysWithin(cap, b, p) <==> p == 0 || b == 0 || cap == 1 || (p == 1 && (b == 1 || cap == 2))
  {
    if p == 0 || b == 0 || cap == 1 || (p == 1 && (b == 1 || cap == 2)) {
      forall s, hops | Roots(s, p) && Legal(s, hops, cap, b)
        ensures WithinCap(After(s, hops, cap, b), cap)
      {
        if p > 0 {
          GuardedStaysWithin(s, hops, cap, b);
        } else {
          assert hops == [];
        }
      }
    } else if p >= 2 {
      ManyRootsPass(cap, b, p);
    } else {
      OneRootPasses(cap, b);
    }
  }

  /** Every session's events act on `b`; those of `a`, it may be, on `c` as well. */
  const TO_B: string -> set<string> := x => {"b"}

  const TO_B_AND_C: string -> set<string> := x => if x == "a" then {"b", "c"} else {"b"}

  /** Hops that obey `hits` and pass the cap. */
  ghost predicate Passes(s: State, cap: int, b: nat, hits: string -> set<string>) {
    exists hops :: Legal(s, hops, cap, b) && Follows(s, hops, cap, b, hits) && !WithinCap(After(s, hops, cap, b), cap)
  }

  lemma ManyRootsPass(cap: nat, b: nat, p: nat)
    requires cap >= 2 && b >= 1 && p >= 2
    ensures Passes(SameRoots(p), cap, b, TO_B) && !StaysWithin(cap, b, p)
  {
    var s, start := SameRoots(p), Hop(p - 1, {"b"}, ["b"]);
    NextGenIsOneMore(s, "a");
    PendingAfter(s, start, cap, b);
    GenAfter(s, start, cap, "a");
    GenAfter(s, start, cap, "b");
    var hops := StartAndPass(s, start, cap, b, TO_B);
    assert Roots(s, p);
  }

  lemma OneRootPasses(cap: nat, b: nat)
    requires cap >= 3 && b >= 2
    ensures Passes(SameRoots(1), cap, b, TO_B_AND_C) && !StaysWithin(cap, b, 1)
  {
    var s, start := SameRoots(1), Hop(0, {"b", "c"}, ["c", "b"]);
    NextGenIsOneMore(s, "a");
    PendingAfter(s, start, cap, b);
    GenAfter(s, start, cap, "b");
    GenAfter(s, start, cap, "c");
    var hops := StartAndPass(s, start, cap, b, TO_B_AND_C);
    assert Roots(s, 1);
  }
}
