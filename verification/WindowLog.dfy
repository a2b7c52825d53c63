/** Sliding windows over a log of times that is never forgotten, and what a pruned bucket keeps of it:
    the arithmetic of `src/server/rateLimit.ts`. */
module WindowLog {
  datatype LimitVerdict = Pass | Blocked(retryAfterSec: int)

  // ---- the never-forgetting log ----------------------------------------------

  /** How many entries lie in (cutoff, ...]. */
  function Live(log: seq<int>, cutoff: int): nat {
    if log == [] then 0 else Live(log[..|log| - 1], cutoff) + if log[|log| - 1] > cutoff then 1 else 0
  }

  ghost predicate Sorted(log: seq<int>) {
    forall i, j :: 0 <= i < j < |log| ==> log[i] <= log[j]
  }

  lemma {:induction false} LiveAppend(a: seq<int>, b: seq<int>, cutoff: int)
    ensures Live(a + b, cutoff) == Live(a, cutoff) + Live(b, cutoff)
  {
    if b == [] {
      assert a + b == a;
    } else {
      LiveAppend(a, b[..|b| - 1], cutoff);
      assert (a + b)[..|a + b| - 1] == a + b[..|b| - 1];
    }
  }

  lemma {:induction false} LiveExtremes(log: seq<int>, cutoff: int)
    ensures (forall i :: 0 <= i < |log| ==> log[i] <= cutoff) ==> Live(log, cutoff) == 0
    ensures (forall i :: 0 <= i < |log| ==> log[i] > cutoff) ==> Live(log, cutoff) == |log|
  {
    if log != [] {
      LiveExtremes(log[..|log| - 1], cutoff);
    }
  }

  /** The oldest entry still in the window; `now` when there is none. */
  function Oldest(log: seq<int>, cutoff: int, now: int): int {
    if log == [] then now else if log[0] > cutoff then log[0] else Oldest(log[1..], cutoff, now)
  }

  function CeilDiv(a: int, b: int): int
    requires b > 0
  {
    -((-a) / b)
  }

  function RetryAfter(oldest: int, windowMs: int, now: int): int {
    var r := CeilDiv(oldest + windowMs - now, 1000);
    if r < 1 then 1 else r
  }

  /** The verdict of a limiter that remembers everything. */
  function Judge(log: seq<int>, windowMs: int, max: int, now: int): LimitVerdict {
    if Live(log, now - windowMs) >= max then Blocked(RetryAfter(Oldest(log, now - windowMs, now), windowMs, now))
      else Pass
  }

  // ---- a pruned bucket against the log ---------------------------------------

  /** The bucket is what is left of the log after dropping a prefix of entries expired at `clock`. */
  ghost predicate Represents(log: seq<int>, hits: seq<int>, windowMs: int, clock: int) {
    && |hits| <= |log|
    && log[|log| - |hits|..] == hits
    && Sorted(log)
    && (forall i :: 0 <= i < |log| ==> log[i] <= clock)
    && (forall i :: 0 <= i < |log| - |hits| ==> log[i] <= clock - windowMs)
  }

  ghost predicate AllAfter(hits: seq<int>, cutoff: int) {
    forall i :: 0 <= i < |hits| ==> hits[i] > cutoff
  }

  function Expired(hits: seq<int>, cutoff: int): (n: nat)
    ensures n <= |hits|
  {
    if hits == [] || hits[0] > cutoff then 0 else 1 + Expired(hits[1..], cutoff)
  }

  lemma {:induction false} ExpiredIsPrefix(hits: seq<int>, cutoff: int)
    requires Sorted(hits)
    ensures Expired(hits, cutoff) <= |hits|
    ensures forall i :: 0 <= i < Expired(hits, cutoff) ==> hits[i] <= cutoff
    ensures forall i :: Expired(hits, cutoff) <= i < |hits| ==> hits[i] > cutoff
  {
    if hits != [] && hits[0] <= cutoff {
      ExpiredIsPrefix(hits[1..], cutoff);
    }
  }

  lemma {:induction false} OldestAfterPrefix(a: seq<int>, b: seq<int>, cutoff: int, now: int)
    requires forall i :: 0 <= i < |a| ==> a[i] <= cutoff
    requires b != [] ==> b[0] > cutoff
    ensures Oldest(a + b, cutoff, now) == if b == [] then now else b[0]
  {
    if a == [] {
      assert a + b == b;
    } else {
      OldestAfterPrefix(a[1..], b, cutoff, now);
      assert (a + b)[1..] == a[1..] + b;
    }
  }

  /** Dropping expired entries from the front leaves a representation at the later clock. */
  lemma PruneRepresents(log: seq<int>, hits: seq<int>, windowMs: int, clock: int, now: int)
    requires Represents(log, hits, windowMs, clock) && clock <= now
    ensures Sorted(hits) && Expired(hits, now - windowMs) <= |hits|
    ensures Represents(log, hits[Expired(hits, now - windowMs)..], windowMs, now)
    ensures AllAfter(hits[Expired(hits, now - windowMs)..], now - windowMs)
  {
    var d := |log| - |hits|;
    SuffixSorted(log, d);
    RestIsLive(hits, now - windowMs);
    DropMore(log, hits, windowMs, clock, now, Expired(hits, now - windowMs));
  }

  lemma RestIsLive(hits: seq<int>, cutoff: int)
    requires Sorted(hits)
    ensures AllAfter(hits[Expired(hits, cutoff)..], cutoff)
    ensures forall i :: 0 <= i < Expired(hits, cutoff) ==> hits[i] <= cutoff
  {
    ExpiredIsPrefix(hits, cutoff);
  }

  lemma DropMore(log: seq<int>, hits: seq<int>, windowMs: int, clock: int, now: int, k: nat)
    requires Represents(log, hits, windowMs, clock) && clock <= now && k <= |hits|
    requires forall i :: 0 <= i < k ==> hits[i] <= now - windowMs
    ensures Represents(log, hits[k..], windowMs, now)
  {
    var d := |log| - |hits|;
    forall i | 0 <= i < d + k
      ensures log[i] <= now - windowMs
    {
      if i >= d {
        assert log[i] == log[d..][i - d];
      }
    }
    assert log[d..][k..] == log[d + k..];
  }

  /** A representation without expired entries is exactly what the log has in its window. */
  lemma FreshAgrees(log: seq<int>, kept: seq<int>, windowMs: int, now: int)
    requires Represents(log, kept, windowMs, now) && AllAfter(kept, now - windowMs)
    ensures |kept| == Live(log, now - windowMs)
    ensures (if kept == [] then now else kept[0]) == Oldest(log, now - windowMs, now)
  {
    assert log == log[..|log| - |kept|] + kept;
    SplitAgrees(log[..|log| - |kept|], kept, now - windowMs, now);
  }

  lemma SplitAgrees(gone: seq<int>, kept: seq<int>, cutoff: int, now: int)
    requires AllAfter(kept, cutoff) && forall i :: 0 <= i < |gone| ==> gone[i] <= cutoff
    ensures Live(gone + kept, cutoff) == |kept|
    ensures Oldest(gone + kept, cutoff, now) == if kept == [] then now else kept[0]
  {
    LiveAppend(gone, kept, cutoff);
    LiveExtremes(gone, cutoff);
    LiveExtremes(kept, cutoff);
    OldestAfterPrefix(gone, kept, cutoff, now);
  }

  lemma AppendRepresents(log: seq<int>, hits: seq<int>, windowMs: int, now: int)
    requires Represents(log, hits, windowMs, now)
    ensures Represents(log + [now], hits + [now], windowMs, now)
  {
  }

  lemma DropRepresents(log: seq<int>, hits: seq<int>, windowMs: int, now: int, horizon: int)
    requires Represents(log, hits, windowMs, now) && windowMs <= horizon
    requires hits == [] || hits[|hits| - 1] <= now - horizon
    ensures Represents(log, [], windowMs, now)
  {
    if hits != [] {
      assert hits[|hits| - 1] == log[|log| - 1];
    }
  }

  function At(buckets: map<string, seq<int>>, ip: string): seq<int> {
    if ip in buckets then buckets[ip] else []
  }

  /** Every bucket, present or dropped, represents its log. */
  ghost predicate AllRepresent(logs: map<string, seq<int>>, buckets: map<string, seq<int>>, windowMs: int, clock: int) {
    forall ip: string {:trigger Represents(At(logs, ip), At(buckets, ip), windowMs, clock)} ::
      Represents(At(logs, ip), At(buckets, ip), windowMs, clock)
  }

  lemma AllLater(logs: map<string, seq<int>>, buckets: map<string, seq<int>>, windowMs: int, clock: int, now: int)
    requires AllRepresent(logs, buckets, windowMs, clock) && clock <= now
    ensures AllRepresent(logs, buckets, windowMs, now)
  {
    forall ip: string
      ensures Represents(At(logs, ip), At(buckets, ip), windowMs, now)
    {
      assert Represents(At(logs, ip), At(buckets, ip), windowMs, clock);
    }
  }

  lemma AllUpdated(logs: map<string, seq<int>>, buckets: map<string, seq<int>>, windowMs: int, clock: int, ip: string,
                   log: seq<int>, hits: seq<int>)
    requires AllRepresent(logs, buckets, windowMs, clock) && Represents(log, hits, windowMs, clock)
    ensures AllRepresent(logs[ip := log], buckets[ip := hits], windowMs, clock)
    ensures log == At(logs, ip) ==> AllRepresent(logs, buckets[ip := hits], windowMs, clock)
  {
    forall x: string
      ensures Represents(At(logs[ip := log], x), At(buckets[ip := hits], x), windowMs, clock)
      ensures log == At(logs, ip) ==> Represents(At(logs, x), At(buckets[ip := hits], x), windowMs, clock)
    {
      assert Represents(At(logs, x), At(buckets, x), windowMs, clock);
      AtUpdated(logs, ip, log, x);
      AtUpdated(buckets, ip, hits, x);
    }
  }

  lemma AtUpdated(buckets: map<string, seq<int>>, ip: string, hits: seq<int>, x: string)
    ensures At(buckets[ip := hits], x) == if x == ip then hits else At(buckets, x)
  {
  }

  /** One more entry at the clock, in the log and in its bucket. */
  lemma AllAppended(logs: map<string, seq<int>>, buckets: map<string, seq<int>>, windowMs: int, now: int, ip: string)
    requires AllRepresent(logs, buckets, windowMs, now)
    ensures AllRepresent(logs[ip := At(logs, ip) + [now]], buckets[ip := At(buckets, ip) + [now]], windowMs, now)
  {
    assert Represents(At(logs, ip), At(buckets, ip), windowMs, now);
    AppendRepresents(At(logs, ip), At(buckets, ip), windowMs, now);
    AllUpdated(logs, buckets, windowMs, now, ip, At(logs, ip) + [now], At(buckets, ip) + [now]);
  }

  lemma AllRemoved(logs: map<string, seq<int>>, buckets: map<string, seq<int>>, windowMs: int, clock: int, ip: string)
    requires AllRepresent(logs, buckets, windowMs, clock)
    ensures AllRepresent(logs - {ip}, buckets - {ip}, windowMs, clock)
  {
    forall x: string
      ensures Represents(At(logs - {ip}, x), At(buckets - {ip}, x), windowMs, clock)
    {
      assert Represents(At(logs, x), At(buckets, x), windowMs, clock);
    }
  }

  lemma {:induction false} ExpiredIs(hits: seq<int>, cutoff: int, i: nat)
    requires i <= |hits| && (forall j :: 0 <= j < i ==> hits[j] <= cutoff) && (i == |hits| || hits[i] > cutoff)
    ensures Expired(hits, cutoff) == i
  {
    if i > 0 { ExpiredIs(hits[1..], cutoff, i - 1); }
  }

  lemma PrunedAt(log: seq<int>, hits: seq<int>, windowMs: int, now: int)
    requires Represents(log, hits, windowMs, now)
    ensures Expired(hits, now - windowMs) <= |hits|
    ensures var kept := hits[Expired(hits, now - windowMs)..];
            && Represents(log, kept, windowMs, now) && |kept| == Live(log, now - windowMs)
            && (if kept == [] then now else kept[0]) == Oldest(log, now - windowMs, now)
  {
    PruneRepresents(log, hits, windowMs, now, now);
    FreshAgrees(log, hits[Expired(hits, now - windowMs)..], windowMs, now);
  }

  predicate Stale(hits: seq<int>, cutoff: int) {
    hits == [] || hits[|hits| - 1] <= cutoff
  }

  function Swept(buckets: map<string, seq<int>>, cutoff: int): map<string, seq<int>> {
    map ip | ip in buckets && !Stale(buckets[ip], cutoff) :: buckets[ip]
  }

  /** A sweep keeps every bucket representing its log. */
  lemma SweepAgrees(logs: map<string, seq<int>>, buckets: map<string, seq<int>>, windowMs: int, now: int, horizon: int)
    requires AllRepresent(logs, buckets, windowMs, now) && windowMs <= horizon
    ensures AllRepresent(logs, Swept(buckets, now - horizon), windowMs, now)
  {
    forall ip: string
      ensures Represents(At(logs, ip), At(Swept(buckets, now - horizon), ip), windowMs, now)
    {
      assert Represents(At(logs, ip), At(buckets, ip), windowMs, now);
      if Stale(At(buckets, ip), now - horizon) {
        DropRepresents(At(logs, ip), At(buckets, ip), windowMs, now, horizon);
      }
    }
  }

  // ---- no window holds more than the maximum ---------------------------------

  /** Each accepted request found fewer than `max` in its window. */
  ghost predicate Bounded(log: seq<int>, windowMs: int, max: int) {
    forall k :: 0 <= k < |log| ==> FoundRoom(log, k, windowMs, max)
  }

  ghost predicate FoundRoom(log: seq<int>, k: nat, windowMs: int, max: int)
    requires k < |log|
  {
    Live(log[..k], log[k] - windowMs) < max
  }

  lemma BoundedAppend(log: seq<int>, windowMs: int, max: int, now: int)
    requires Bounded(log, windowMs, max) && Live(log, now - windowMs) < max
    ensures Bounded(log + [now], windowMs, max)
  {
    var more := log + [now];
    forall k | 0 <= k < |more|
      ensures FoundRoom(more, k, windowMs, max)
    {
      assert more[..k] == log[..k];
      assert k < |log| ==> FoundRoom(log, k, windowMs, max);
      if k == |log| {
        assert log[..k] == log;
      }
    }
  }

  ghost predicate AllBounded(logs: map<string, seq<int>>, windowMs: int, max: int) {
    forall ip: string {:trigger Bounded(At(logs, ip), windowMs, max)} :: Bounded(At(logs, ip), windowMs, max)
  }

  lemma AllBoundedAppend(logs: map<string, seq<int>>, windowMs: int, max: int, ip: string, now: int)
    requires AllBounded(logs, windowMs, max) && Live(At(logs, ip), now - windowMs) < max
    ensures AllBounded(logs[ip := At(logs, ip) + [now]], windowMs, max)
  {
    var later := logs[ip := At(logs, ip) + [now]];
    forall x: string
      ensures Bounded(At(later, x), windowMs, max)
    {
      assert Bounded(At(logs, x), windowMs, max);
      if x == ip {
        BoundedAppend(At(logs, ip), windowMs, max, now);
      }
    }
  }

  /** How many entries lie in (t - windowMs, t]. */
  function InWindow(log: seq<int>, t: int, windowMs: int): nat {
    if log == [] then 0
    else InWindow(log[..|log| - 1], t, windowMs) + if t - windowMs < log[|log| - 1] <= t then 1 else 0
  }

  lemma {:induction false} InWindowIsLive(log: seq<int>, t: int, windowMs: int)
    requires forall i :: 0 <= i < |log| ==> log[i] <= t
    ensures InWindow(log, t, windowMs) == Live(log, t - windowMs)
  {
    if log != [] {
      InWindowIsLive(log[..|log| - 1], t, windowMs);
    }
  }

  lemma {:induction false} LiveIsMonotone(log: seq<int>, low: int, high: int)
    requires low <= high
    ensures Live(log, high) <= Live(log, low) <= |log|
  {
    if log != [] {
      LiveIsMonotone(log[..|log| - 1], low, high);
    }
  }

  /** Whatever window one looks at afterwards, it holds at most `max` accepted requests. */
  lemma {:induction false} AnyWindowIsBounded(log: seq<int>, windowMs: int, max: int, t: int)
    requires Sorted(log) && Bounded(log, windowMs, max)
    ensures InWindow(log, t, windowMs) <= if max < 0 then 0 else max
  {
    if log != [] {
      var n := |log| - 1;
      BoundedPrefix(log, windowMs, max);
      if log[n] <= t {
        InWindowIsLive(log[..n], t, windowMs);
        LiveIsMonotone(log[..n], log[n] - windowMs, t - windowMs);
      } else {
        AnyWindowIsBounded(log[..n], windowMs, max, t);
      }
    }
  }

  lemma BoundedPrefix(log: seq<int>, windowMs: int, max: int)
    requires log != [] && Bounded(log, windowMs, max)
    ensures Bounded(log[..|log| - 1], windowMs, max)
    ensures Live(log[..|log| - 1], log[|log| - 1] - windowMs) < max
  {
    var n := |log| - 1;
    forall k | 0 <= k < n
      ensures FoundRoom(log[..n], k, windowMs, max)
    {
      assert log[..n][..k] == log[..k];
      assert FoundRoom(log, k, windowMs, max);
    }
    assert FoundRoom(log, n, windowMs, max);
  }

  lemma AllBoundedRemove(logs: map<string, seq<int>>, windowMs: int, max: int, ip: string)
    requires AllBounded(logs, windowMs, max)
    ensures AllBounded(logs - {ip}, windowMs, max)
  {
    forall x: string
      ensures Bounded(At(logs - {ip}, x), windowMs, max)
    {
      assert Bounded(At(logs, x), windowMs, max);
    }
  }

  // ---- retry-after -----------------------------------------------------------

  /** The entries still in the window, oldest first. */
  function LiveEntries(log: seq<int>, cutoff: int): seq<int> {
    if log == [] then []
    else
      var last := log[|log| - 1];
      LiveEntries(log[..|log| - 1], cutoff) + if last > cutoff then [last] else []
  }

  lemma {:induction false} LiveEntriesCount(log: seq<int>, cutoff: int)
    ensures |LiveEntries(log, cutoff)| == Live(log, cutoff)
  {
    if log != [] { LiveEntriesCount(log[..|log| - 1], cutoff); }
  }

  lemma {:induction false} LiveEntriesAppend(a: seq<int>, b: seq<int>, cutoff: int)
    ensures LiveEntries(a + b, cutoff) == LiveEntries(a, cutoff) + LiveEntries(b, cutoff)
  {
    if b == [] {
      assert a + b == a;
    } else {
      LiveEntriesAppend(a, b[..|b| - 1], cutoff);
      assert (a + b)[..|a + b| - 1] == a + b[..|b| - 1];
    }
  }

  lemma {:induction false} LiveEntriesExtremes(log: seq<int>, cutoff: int)
    ensures (forall i :: 0 <= i < |log| ==> log[i] <= cutoff) ==> LiveEntries(log, cutoff) == []
    ensures (forall i :: 0 <= i < |log| ==> log[i] > cutoff) ==> LiveEntries(log, cutoff) == log
  {
    if log != [] { LiveEntriesExtremes(log[..|log| - 1], cutoff); }
  }

  /** The live entries of a log are what pruning leaves of it. */
  lemma PrunedNow(log: seq<int>, windowMs: int, now: int) returns (kept: seq<int>)
    requires Sorted(log) && (forall i :: 0 <= i < |log| ==> log[i] <= now)
    ensures Represents(log, kept, windowMs, now) && Sorted(kept) && kept == LiveEntries(log, now - windowMs)
    ensures |kept| == Live(log, now - windowMs)
    ensures (if kept == [] then now else kept[0]) == Oldest(log, now - windowMs, now)
  {
    kept := log[Expired(log, now - windowMs)..];
    SuffixIsLive(log, now - windowMs);
    PrunedAt(log, log, windowMs, now);
  }

  lemma SuffixIsLive(log: seq<int>, cutoff: int)
    requires Sorted(log)
    ensures log[Expired(log, cutoff)..] == LiveEntries(log, cutoff) && Sorted(LiveEntries(log, cutoff))
  {
    var k := Expired(log, cutoff);
    RestIsLive(log, cutoff);
    SuffixSorted(log, k);
    KeptIsLive(log, log[k..], cutoff);
  }

  lemma KeptIsLive(log: seq<int>, kept: seq<int>, cutoff: int)
    requires |kept| <= |log| && log[|log| - |kept|..] == kept && AllAfter(kept, cutoff)
    requires forall i :: 0 <= i < |log| - |kept| ==> log[i] <= cutoff
    ensures LiveEntries(log, cutoff) == kept
  {
    var gone := log[..|log| - |kept|];
    assert forall i :: 0 <= i < |gone| ==> gone[i] == log[i];
    assert log == gone + kept;
    LiveEntriesAppend(gone, kept, cutoff);
    LiveEntriesExtremes(gone, cutoff);
    LiveEntriesExtremes(kept, cutoff);
  }

  lemma SuffixSorted(log: seq<int>, k: nat)
    requires Sorted(log) && k <= |log|
    ensures Sorted(log[k..])
  {
  }

  lemma LaterCount(log: seq<int>, kept: seq<int>, windowMs: int, now: int, later: int)
    requires Represents(log, kept, windowMs, now) && now <= later
    ensures Live(log, later - windowMs) == Live(kept, later - windowMs)
  {
    var gone := log[..|log| - |kept|];
    assert log == gone + kept;
    LiveAppend(gone, kept, later - windowMs);
    LiveExtremes(gone, later - windowMs);
  }

  /** Fewer than `m` entries of a sorted log are past the cutoff exactly when the `m`-th from the end is not. */
  lemma {:induction false} FewerThan(kept: seq<int>, cutoff: int, m: nat)
    requires Sorted(kept) && 1 <= m <= |kept|
    ensures Live(kept, cutoff) < m <==> kept[|kept| - m] <= cutoff
  {
    var n := |kept| - 1;
    if kept[n] <= cutoff {
      LiveExtremes(kept, cutoff);
    } else if m > 1 {
      FewerThan(kept[..n], cutoff, m - 1);
    }
  }

  /** From now on, what a log has in its window is what its entries live now have. */
  lemma LaterLive(log: seq<int>, windowMs: int, now: int, later: int)
    requires Sorted(log) && (forall i :: 0 <= i < |log| ==> log[i] <= now) && now <= later
    ensures var live := LiveEntries(log, now - windowMs);
            Sorted(live) && |live| == Live(log, now - windowMs)
              && Live(log, later - windowMs) == Live(live, later - windowMs)
  {
    var kept := PrunedNow(log, windowMs, now);
    LaterCount(log, kept, windowMs, now, later);
  }

  /** When a window that is full, or over-full by `e`, has room again if nothing is added meanwhile: exactly once its
      live entry number `e`, counted from the oldest, has left. */
  lemma WindowOpensIff(log: seq<int>, windowMs: int, max: int, now: int, later: int)
    requires Sorted(log) && (forall i :: 0 <= i < |log| ==> log[i] <= now)
    requires max >= 1 && Live(log, now - windowMs) >= max && now <= later
    ensures var live := LiveEntries(log, now - windowMs);
            && |live| == Live(log, now - windowMs)
            && (Live(log, later - windowMs) < max <==> live[|live| - max] + windowMs <= later)
  {
    LaterLive(log, windowMs, now, later);
    FewerThan(LiveEntries(log, now - windowMs), later - windowMs, max);
  }

  lemma CeilFacts(x: int)
    ensures 1000 * (CeilDiv(x, 1000) - 1) < x <= 1000 * CeilDiv(x, 1000)
    ensures x > 0 ==> CeilDiv(x, 1000) >= 1
  {
  }

  /** The oldest live entry. */
  lemma OldestIsLive(log: seq<int>, windowMs: int, max: int, now: int)
    requires Sorted(log) && (forall i :: 0 <= i < |log| ==> log[i] <= now)
    requires 1 <= max <= Live(log, now - windowMs)
    ensures var live := LiveEntries(log, now - windowMs);
            && |live| >= max && live[0] == Oldest(log, now - windowMs, now) && live[0] > now - windowMs
            && live[0] <= live[|live| - max]
  {
    LiveHead(log, windowMs, now);
    LiveEntriesAreLive(log, now - windowMs);
    HeadIsLeast(LiveEntries(log, now - windowMs));
  }

  lemma LiveHead(log: seq<int>, windowMs: int, now: int)
    requires Sorted(log) && (forall i :: 0 <= i < |log| ==> log[i] <= now)
    ensures var live := LiveEntries(log, now - windowMs);
            && Sorted(live) && |live| == Live(log, now - windowMs)
            && (live != [] ==> live[0] == Oldest(log, now - windowMs, now))
  {
    var live := PrunedNow(log, windowMs, now);
  }

  lemma HeadIsLeast(live: seq<int>)
    requires Sorted(live)
    ensures forall i :: 0 <= i < |live| ==> live[0] <= live[i]
  {
  }

  lemma {:induction false} LiveEntriesAreLive(log: seq<int>, cutoff: int)
    ensures AllAfter(LiveEntries(log, cutoff), cutoff)
  {
    if log != [] { LiveEntriesAreLive(log[..|log| - 1], cutoff); }
  }

  /** Retry-after is rounded up from when the oldest live entry leaves; no other leaves before it. */
  lemma OldestRules(log: seq<int>, windowMs: int, max: int, now: int)
    requires Sorted(log) && (forall i :: 0 <= i < |log| ==> log[i] <= now)
    requires max >= 1 && Judge(log, windowMs, max, now).Blocked?
    ensures var live, r := LiveEntries(log, now - windowMs), Judge(log, windowMs, max, now).retryAfterSec;
            && r >= 1 && |live| >= max
            && now + 1000 * (r - 1) < live[0] + windowMs <= now + 1000 * r && live[0] <= live[|live| - max]
  {
    OldestIsLive(log, windowMs, max, now);
    CeilFacts(Oldest(log, now - windowMs, now) + windowMs - now);
  }

  /** Retry-after, counted from the oldest live entry, is never later than the answer can change; and it is enough
      if and only if the live entry number `e` - with `e` entries more than the maximum in the window - has left by
      then. */
  lemma RetryAfterSufficesIff(log: seq<int>, windowMs: int, max: int, now: int)
    requires Sorted(log) && (forall i :: 0 <= i < |log| ==> log[i] <= now)
    requires max >= 1 && Judge(log, windowMs, max, now).Blocked?
    ensures var live, r := LiveEntries(log, now - windowMs), Judge(log, windowMs, max, now).retryAfterSec;
            && |live| >= max && r >= 1
            && (forall later {:trigger Judge(log, windowMs, max, later)} ::
                  now <= later <= now + 1000 * (r - 1) ==> Judge(log, windowMs, max, later).Blocked?)
            && (Judge(log, windowMs, max, now + 1000 * r).Pass? <==> live[|live| - max] <= now + 1000 * r - windowMs)
  {
    var r := Judge(log, windowMs, max, now).retryAfterSec;
    OldestRules(log, windowMs, max, now);
    PassIff(log, windowMs, max, now, now + 1000 * r);
    forall later {:trigger Judge(log, windowMs, max, later)} | now <= later <= now + 1000 * (r - 1)
      ensures Judge(log, windowMs, max, later).Blocked?
    {
      PassIff(log, windowMs, max, now, later);
    }
  }

  lemma PassIff(log: seq<int>, windowMs: int, max: int, now: int, later: int)
    requires Sorted(log) && (forall i :: 0 <= i < |log| ==> log[i] <= now)
    requires max >= 1 && Judge(log, windowMs, max, now).Blocked? && now <= later
    ensures var live := LiveEntries(log, now - windowMs);
            |live| >= max && (Judge(log, windowMs, max, later).Pass? <==> live[|live| - max] + windowMs <= later)
  {
    WindowOpensIff(log, windowMs, max, now, later);
  }

  /** Where every accepted entry found room, the window is exactly full at a refusal, and retry-after is exact: `r`
      seconds later the request passes, up to `r - 1` seconds later it is refused. */
  lemma RefusalRetryAfterIsExact(log: seq<int>, windowMs: int, max: int, now: int, later: int)
    requires Sorted(log) && (forall i :: 0 <= i < |log| ==> log[i] <= now) && Bounded(log, windowMs, max)
    requires max >= 1 && now <= later
    requires Judge(log, windowMs, max, now).Blocked?
    ensures var r := Judge(log, windowMs, max, now).retryAfterSec;
            && (later >= now + 1000 * r ==> Judge(log, windowMs, max, later).Pass?)
            && (later <= now + 1000 * (r - 1) ==> Judge(log, windowMs, max, later).Blocked?)
  {
    AnyWindowIsBounded(log, windowMs, max, now);
    InWindowIsLive(log, now, windowMs);
    LiveEntriesCount(log, now - windowMs);
    OldestRules(log, windowMs, max, now);
    PassIff(log, windowMs, max, now, later);
  }
}
