/** The per-IP limiter of `src/server/rateLimit.ts` and the auth gate around it (`src/server/index.ts`). */
module RateLimit {
  import opened Text
  import opened WindowLog

  datatype Config = Config(windowMs: int, maxRequestsPerWindow: int, authWindowMs: int, maxAuthFailures: int)

  const SWEEP_EVERY_MS := 60_000

  type Buckets = map<string, seq<int>>

  /** Everything the limiter stores. */
  datatype Shelves = Shelves(general: Buckets, authFail: Buckets, lastSweep: int)

  const EMPTY := Shelves(map[], map[], 0)

  // ---- what each call does, whatever the clock says ---------------------------

  function SweepAt(cfg: Config, b: Shelves, now: int): Shelves {
    if now - b.lastSweep < SWEEP_EVERY_MS then b
    else
      var horizon := if cfg.windowMs >= cfg.authWindowMs then cfg.windowMs else cfg.authWindowMs;
      Shelves(Swept(b.general, now - horizon), Swept(b.authFail, now - horizon), now)
  }

  /** A bucket without its expired beginning. */
  function Kept(buckets: Buckets, ip: string, cutoff: int): seq<int> {
    At(buckets, ip)[Expired(At(buckets, ip), cutoff)..]
  }

  function VerdictOf(hits: seq<int>, windowMs: int, max: int, now: int): LimitVerdict {
    if |hits| >= max then Blocked(RetryAfter(if hits == [] then now else hits[0], windowMs, now)) else Pass
  }

  function HitOn(cfg: Config, b: Shelves, ip: string, now: int): (Shelves, LimitVerdict) {
    var swept := SweepAt(cfg, b, now);
    var hits := Kept(swept.general, ip, now - cfg.windowMs);
    var v := VerdictOf(hits, cfg.windowMs, cfg.maxRequestsPerWindow, now);
    (swept.(general := swept.general[ip := if v.Pass? then hits + [now] else hits]), v)
  }

  function AskOn(cfg: Config, b: Shelves, ip: string, now: int): (Shelves, LimitVerdict) {
    var swept := SweepAt(cfg, b, now);
    var hits := Kept(swept.authFail, ip, now - cfg.authWindowMs);
    (swept.(authFail := swept.authFail[ip := hits]), VerdictOf(hits, cfg.authWindowMs, cfg.maxAuthFailures, now))
  }

  function FailOn(b: Shelves, ip: string, now: int): Shelves {
    b.(authFail := b.authFail[ip := At(b.authFail, ip) + [now]])
  }

  function ClearOn(b: Shelves, ip: string): Shelves {
    b.(authFail := b.authFail - {ip})
  }

  /** A sweep comes at most once a minute. It drops the buckets whose last entry has left both windows, and those
      without
      an entry, and keeps the others as they are: memory is that of the addresses seen of late. */
  lemma SweepDropsTheDead(cfg: Config, b: Shelves, now: int)
    ensures now < b.lastSweep + 60_000 ==> SweepAt(cfg, b, now) == b
    ensures now >= b.lastSweep + 60_000 ==>
              var swept := SweepAt(cfg, b, now);
              && swept.lastSweep == now
              && (forall ip :: ip in swept.general <==> ip in b.general && IsRecent(cfg, b.general[ip], now))
              && (forall ip :: ip in swept.authFail <==> ip in b.authFail && IsRecent(cfg, b.authFail[ip], now))
              && (forall ip :: ip in swept.general ==> swept.general[ip] == b.general[ip])
              && (forall ip :: ip in swept.authFail ==> swept.authFail[ip] == b.authFail[ip])
  {
  }

  /** The bucket's last entry is still in one of the windows. */
  predicate IsRecent(cfg: Config, hits: seq<int>, now: int) {
    hits != [] && (hits[|hits| - 1] > now - cfg.windowMs || hits[|hits| - 1] > now - cfg.authWindowMs)
  }

  /** Asking whether an address is blocked tidies its bucket: the entries that have left the window by now are gone from
      its front. */
  lemma AskTidies(cfg: Config, b: Shelves, ip: string, now: int) returns (i: nat)
    ensures var kept := At(AskOn(cfg, b, ip, now).0.authFail, ip);
            var was := At(SweepAt(cfg, b, now).authFail, ip);
            && i <= |was| && kept == was[i..] && (forall j :: 0 <= j < i ==> was[j] <= now - cfg.authWindowMs)
            && (kept != [] ==> kept[0] > now - cfg.authWindowMs)
  {
    var was := At(SweepAt(cfg, b, now).authFail, ip);
    i := Expired(was, now - cfg.authWindowMs);
    ExpiredAreExpired(was, now - cfg.authWindowMs);
  }

  lemma {:induction false} ExpiredAreExpired(hits: seq<int>, cutoff: int)
    ensures forall j :: 0 <= j < Expired(hits, cutoff) ==> hits[j] <= cutoff
    ensures Expired(hits, cutoff) < |hits| ==> hits[Expired(hits, cutoff)] > cutoff
  {
    if hits != [] && hits[0] <= cutoff {
      ExpiredAreExpired(hits[1..], cutoff);
      assert forall j :: 1 <= j < |hits| ==> hits[j] == hits[1..][j - 1];
    }
  }

  class RateLimiter {
    const cfg: Config
    var general: Buckets
    var authFail: Buckets
    var lastSweep: int

    constructor (cfg: Config)
      ensures this.cfg == cfg && View() == EMPTY
    {
      this.cfg := cfg;
      general, authFail, lastSweep := map[], map[], 0;
    }

    function View(): Shelves
      reads this
    {
      Shelves(general, authFail, lastSweep)
    }

    /** Record a general request and report whether it is within budget. */
    method Hit(ip: string, now: int) returns (v: LimitVerdict)
      modifies this
      ensures (View(), v) == HitOn(cfg, old(View()), ip, now)
    {
      MaybeSweep(now);
      var hits := DropExpired(At(general, ip), now - cfg.windowMs);
      v := Decide(hits, cfg.windowMs, cfg.maxRequestsPerWindow, now);
      if v.Pass? {
        hits := hits + [now];
      }
      general := general[ip := hits];
    }

    /** Is this IP blocked by the auth-failure guard? Nothing is recorded. */
    method AuthBlocked(ip: string, now: int) returns (v: LimitVerdict)
      modifies this
      ensures (View(), v) == AskOn(cfg, old(View()), ip, now)
    {
      MaybeSweep(now);
      var hits := DropExpired(At(authFail, ip), now - cfg.authWindowMs);
      v := Decide(hits, cfg.authWindowMs, cfg.maxAuthFailures, now);
      authFail := authFail[ip := hits];
    }

    method RecordAuthFailure(ip: string, now: int)
      modifies this
      ensures View() == FailOn(old(View()), ip, now)
    {
      authFail := authFail[ip := At(authFail, ip) + [now]];
    }

    method ClearAuthFailures(ip: string)
      modifies this
      ensures View() == ClearOn(old(View()), ip)
    {
      authFail := authFail - {ip};
    }

    /** Periodically drop empty and stale buckets. */
    method MaybeSweep(now: int)
      modifies this
      ensures View() == SweepAt(cfg, old(View()), now)
    {
      if now - lastSweep < SWEEP_EVERY_MS {
        return;
      }
      lastSweep := now;
      var horizon := if cfg.windowMs >= cfg.authWindowMs then cfg.windowMs else cfg.authWindowMs;
      general := Swept(general, now - horizon);
      authFail := Swept(authFail, now - horizon);
    }

    /** Count the expired entries at the front and splice them off. */
    static method DropExpired(hits: seq<int>, cutoff: int) returns (kept: seq<int>)
      ensures kept == hits[Expired(hits, cutoff)..]
    {
      var i := 0;
      while i < |hits| && hits[i] <= cutoff
        invariant 0 <= i <= |hits|
        invariant forall j :: 0 <= j < i ==> hits[j] <= cutoff
      {
        i := i + 1;
      }
      ExpiredIs(hits, cutoff, i);
      kept := hits[i..];
    }

    static method Decide(hits: seq<int>, windowMs: int, max: int, now: int) returns (v: LimitVerdict)
      ensures v == VerdictOf(hits, windowMs, max, now)
    {
      if |hits| >= max {
        var oldest := if |hits| > 0 then hits[0] else now;
        v := Blocked(RetryAfter(oldest, windowMs, now));
      } else {
        v := Pass;
      }
    }
  }

  // ---- the limiter that never forgets ------------------------------------------

  /** Accepted requests, auth failures since the last clear, and the latest clock reading. */
  datatype Logs = Logs(accepted: Buckets, failures: Buckets, clock: int)

  ghost predicate Remembers(cfg: Config, b: Shelves, l: Logs) {
    && AllRepresent(l.accepted, b.general, cfg.windowMs, l.clock)
    && AllRepresent(l.failures, b.authFail, cfg.authWindowMs, l.clock)
    && AllBounded(l.accepted, cfg.windowMs, cfg.maxRequestsPerWindow)
  }

  function AcceptOn(cfg: Config, l: Logs, ip: string, now: int): (Logs, LimitVerdict) {
    var v := Judge(At(l.accepted, ip), cfg.windowMs, cfg.maxRequestsPerWindow, now);
    (Logs(if v.Pass? then l.accepted[ip := At(l.accepted, ip) + [now]] else l.accepted, l.failures, now), v)
  }

  lemma SweepRemembers(cfg: Config, b: Shelves, l: Logs, now: int)
    requires Remembers(cfg, b, l) && l.clock <= now
    ensures Remembers(cfg, SweepAt(cfg, b, now), l.(clock := now))
  {
    AllLater(l.accepted, b.general, cfg.windowMs, l.clock, now);
    AllLater(l.failures, b.authFail, cfg.authWindowMs, l.clock, now);
    var horizon := if cfg.windowMs >= cfg.authWindowMs then cfg.windowMs else cfg.authWindowMs;
    SweepAgrees(l.accepted, b.general, cfg.windowMs, now, horizon);
    SweepAgrees(l.failures, b.authFail, cfg.authWindowMs, now, horizon);
  }

  /** Pruning one bucket keeps it representing its log, and shows the verdict of the log. */
  lemma KeptAgrees(logs: Buckets, buckets: Buckets, windowMs: int, max: int, ip: string, now: int)
    requires AllRepresent(logs, buckets, windowMs, now)
    ensures AllRepresent(logs, buckets[ip := Kept(buckets, ip, now - windowMs)], windowMs, now)
    ensures VerdictOf(Kept(buckets, ip, now - windowMs), windowMs, max, now) == Judge(At(logs, ip), windowMs, max, now)
  {
    assert Represents(At(logs, ip), At(buckets, ip), windowMs, now);
    KeptOne(At(logs, ip), At(buckets, ip), windowMs, max, now);
    AllUpdated(logs, buckets, windowMs, now, ip, At(logs, ip), Kept(buckets, ip, now - windowMs));
  }

  lemma KeptOne(log: seq<int>, hits: seq<int>, windowMs: int, max: int, now: int)
    requires Represents(log, hits, windowMs, now)
    ensures var kept := hits[Expired(hits, now - windowMs)..];
            Represents(log, kept, windowMs, now)
              && VerdictOf(kept, windowMs, max, now) == Judge(log, windowMs, max, now)
  {
    PrunedAt(log, hits, windowMs, now);
  }

  /** A hit is accepted exactly when fewer than the maximum of all hits ever accepted lie in the window. */
  lemma HitAgrees(cfg: Config, b: Shelves, l: Logs, ip: string, now: int)
    requires Remembers(cfg, b, l) && l.clock <= now
    ensures HitOn(cfg, b, ip, now).1 == AcceptOn(cfg, l, ip, now).1
    ensures Remembers(cfg, HitOn(cfg, b, ip, now).0, AcceptOn(cfg, l, ip, now).0)
  {
    var swept := SweepAt(cfg, b, now);
    SweepRemembers(cfg, b, l, now);
    KeptAgrees(l.accepted, swept.general, cfg.windowMs, cfg.maxRequestsPerWindow, ip, now);
    var hits := Kept(swept.general, ip, now - cfg.windowMs);
    if AcceptOn(cfg, l, ip, now).1.Pass? {
      var pruned := swept.general[ip := hits];
      AllAppended(l.accepted, pruned, cfg.windowMs, now, ip);
      AllBoundedAppend(l.accepted, cfg.windowMs, cfg.maxRequestsPerWindow, ip, now);
      assert At(pruned, ip) == hits && pruned[ip := hits + [now]] == swept.general[ip := hits + [now]];
    }
  }

  /** The auth guard blocks exactly when at least the maximum of failures since the last clear lie in its window. */
  lemma AskAgrees(cfg: Config, b: Shelves, l: Logs, ip: string, now: int)
    requires Remembers(cfg, b, l) && l.clock <= now
    ensures AskOn(cfg, b, ip, now).1 == Judge(At(l.failures, ip), cfg.authWindowMs, cfg.maxAuthFailures, now)
    ensures Remembers(cfg, AskOn(cfg, b, ip, now).0, l.(clock := now))
  {
    SweepRemembers(cfg, b, l, now);
    KeptAgrees(l.failures, SweepAt(cfg, b, now).authFail, cfg.authWindowMs, cfg.maxAuthFailures, ip, now);
  }

  function FailedOn(l: Logs, ip: string, now: int): Logs {
    Logs(l.accepted, l.failures[ip := At(l.failures, ip) + [now]], now)
  }

  lemma FailAgrees(cfg: Config, b: Shelves, l: Logs, ip: string, now: int)
    requires Remembers(cfg, b, l) && l.clock <= now
    ensures Remembers(cfg, FailOn(b, ip, now), FailedOn(l, ip, now))
  {
    AllLater(l.accepted, b.general, cfg.windowMs, l.clock, now);
    AllLater(l.failures, b.authFail, cfg.authWindowMs, l.clock, now);
    AllAppended(l.failures, b.authFail, cfg.authWindowMs, now, ip);
  }

  lemma ClearAgrees(cfg: Config, b: Shelves, l: Logs, ip: string)
    requires Remembers(cfg, b, l)
    ensures Remembers(cfg, ClearOn(b, ip), l.(failures := l.failures - {ip}))
  {
    AllRemoved(l.failures, b.authFail, cfg.authWindowMs, l.clock, ip);
  }

  // ---- any sequence of calls ---------------------------------------------------

  datatype Call = Hits(ip: string, at: int) | AsksAuth(ip: string, at: int) | Fails(ip: string, at: int)
      | Clears(ip: string)

  function Answer(cfg: Config, b: Shelves, c: Call): (Shelves, Option<LimitVerdict>) {
    match c
    case Hits(ip, at) => var (next, v) := HitOn(cfg, b, ip, at); (next, Some(v))
    case AsksAuth(ip, at) => var (next, v) := AskOn(cfg, b, ip, at); (next, Some(v))
    case Fails(ip, at) => (FailOn(b, ip, at), None)
    case Clears(ip) => (ClearOn(b, ip), None)
  }

  function Recall(cfg: Config, l: Logs, c: Call): (Logs, Option<LimitVerdict>) {
    match c
    case Hits(ip, at) => var (next, v) := AcceptOn(cfg, l, ip, at); (next, Some(v))
    case AsksAuth(ip, at) =>
      (l.(clock := at), Some(Judge(At(l.failures, ip), cfg.authWindowMs, cfg.maxAuthFailures, at)))
    case Fails(ip, at) => (FailedOn(l, ip, at), None)
    case Clears(ip) => (l.(failures := l.failures - {ip}), None)
  }

  function Answers(cfg: Config, b: Shelves, calls: seq<Call>): seq<Option<LimitVerdict>>
    decreases calls
  {
    if calls == [] then []
    else
      var (next, v) := Answer(cfg, b, calls[0]);
      [v] + Answers(cfg, next, calls[1..])
  }

  function Recalls(cfg: Config, l: Logs, calls: seq<Call>): seq<Option<LimitVerdict>>
    decreases calls
  {
    if calls == [] then []
    else
      var (next, v) := Recall(cfg, l, calls[0]);
      [v] + Recalls(cfg, next, calls[1..])
  }

  function ShelvesAfter(cfg: Config, b: Shelves, calls: seq<Call>): Shelves
    decreases calls
  {
    if calls == [] then b else ShelvesAfter(cfg, Answer(cfg, b, calls[0]).0, calls[1..])
  }

  function LogsAfter(cfg: Config, l: Logs, calls: seq<Call>): Logs
    decreases calls
  {
    if calls == [] then l else LogsAfter(cfg, Recall(cfg, l, calls[0]).0, calls[1..])
  }

  /** The clock does not run backwards. */
  predicate InOrder(calls: seq<Call>, clock: int)
    decreases calls
  {
    calls == [] ||
    (if calls[0].Clears? then InOrder(calls[1..], clock) else clock <= calls[0].at && InOrder(calls[1..], calls[0].at))
  }

  lemma CallAgrees(cfg: Config, b: Shelves, l: Logs, c: Call)
    requires Remembers(cfg, b, l) && (c.Clears? || l.clock <= c.at)
    ensures Answer(cfg, b, c).1 == Recall(cfg, l, c).1
    ensures Remembers(cfg, Answer(cfg, b, c).0, Recall(cfg, l, c).0)
    ensures Recall(cfg, l, c).0.clock == if c.Clears? then l.clock else c.at
  {
    match c {
      case Hits(ip, at) => HitAgrees(cfg, b, l, ip, at);
      case AsksAuth(ip, at) => AskAgrees(cfg, b, l, ip, at);
      case Fails(ip, at) => FailAgrees(cfg, b, l, ip, at);
      case Clears(ip) => ClearAgrees(cfg, b, l, ip);
    }
  }

  lemma {:induction false} CallsAgree(cfg: Config, b: Shelves, l: Logs, calls: seq<Call>)
    requires Remembers(cfg, b, l) && InOrder(calls, l.clock)
    ensures Answers(cfg, b, calls) == Recalls(cfg, l, calls)
    ensures Remembers(cfg, ShelvesAfter(cfg, b, calls), LogsAfter(cfg, l, calls))
    decreases calls
  {
    if calls != [] {
      CallAgrees(cfg, b, l, calls[0]);
      CallsAgree(cfg, Answer(cfg, b, calls[0]).0, Recall(cfg, l, calls[0]).0, calls[1..]);
    }
  }

  function NoLogs(clock: int): Logs {
    Logs(map[], map[], clock)
  }

  /** On a clock that does not run backwards a new limiter answers every sequence of calls as one that never forgets,
      whatever it pruned and swept in between. */
  lemma LimiterNeverForgets(cfg: Config, calls: seq<Call>, clock: int)
    requires InOrder(calls, clock)
    ensures Answers(cfg, EMPTY, calls) == Recalls(cfg, NoLogs(clock), calls)
    ensures Remembers(cfg, ShelvesAfter(cfg, EMPTY, calls), LogsAfter(cfg, NoLogs(clock), calls))
  {
    NothingYet(cfg, clock);
    CallsAgree(cfg, EMPTY, NoLogs(clock), calls);
  }

  lemma NothingYet(cfg: Config, clock: int)
    ensures Remembers(cfg, EMPTY, NoLogs(clock))
  {
  }

  // ---- a client that waits -----------------------------------------------------

  lemma {:induction false} OthersLeaveItAlone(cfg: Config, l: Logs, calls: seq<Call>, ip: string)
    requires forall i :: 0 <= i < |calls| ==> !(calls[i].Hits? && calls[i].ip == ip)
    ensures At(LogsAfter(cfg, l, calls).accepted, ip) == At(l.accepted, ip)
    decreases calls
  {
    if calls != [] {
      OthersLeaveItAlone(cfg, Recall(cfg, l, calls[0]).0, calls[1..], ip);
    }
  }

  lemma {:induction false} ClockAfter(cfg: Config, l: Logs, calls: seq<Call>, later: int)
    requires InOrder(calls + [Hits("", later)], l.clock)
    ensures InOrder(calls, l.clock) && l.clock <= LogsAfter(cfg, l, calls).clock <= later
    decreases calls
  {
    if calls != [] {
      assert (calls + [Hits("", later)])[1..] == calls[1..] + [Hits("", later)];
      ClockAfter(cfg, Recall(cfg, l, calls[0]).0, calls[1..], later);
    }
  }

  /** A client that was told to wait `r` seconds and sends nothing meanwhile, whatever other clients and the auth guard
      do in between: its next request passes after `r` seconds and is refused up to `r - 1` seconds. */
  lemma WaitingPaysOff(cfg: Config, earlier: seq<Call>, clock: int, ip: string, now: int, others: seq<Call>, later: int)
    requires InOrder(earlier, clock) && LogsAfter(cfg, NoLogs(clock), earlier).clock <= now
    requires InOrder(others + [Hits("", later)], now) && cfg.maxRequestsPerWindow >= 1
    requires forall i :: 0 <= i < |others| ==> !(others[i].Hits? && others[i].ip == ip)
    ensures var b := ShelvesAfter(cfg, EMPTY, earlier);
            var (refused, v) := HitOn(cfg, b, ip, now);
            var again := HitOn(cfg, ShelvesAfter(cfg, refused, others), ip, later).1;
            v.Blocked? ==>
              && (later >= now + 1000 * v.retryAfterSec ==> again.Pass?)
              && (later <= now + 1000 * (v.retryAfterSec - 1) ==> again.Blocked?)
  {
    LimiterNeverForgets(cfg, earlier, clock);
    RefusedThenLater(cfg, ShelvesAfter(cfg, EMPTY, earlier), LogsAfter(cfg, NoLogs(clock), earlier), ip, now, others,
                     later);
  }

  lemma RefusedThenLater(cfg: Config, b: Shelves, l: Logs, ip: string, now: int, others: seq<Call>, later: int)
    requires Remembers(cfg, b, l) && l.clock <= now
    requires InOrder(others + [Hits("", later)], now) && cfg.maxRequestsPerWindow >= 1
    requires forall i :: 0 <= i < |others| ==> !(others[i].Hits? && others[i].ip == ip)
    ensures var (refused, v) := HitOn(cfg, b, ip, now);
            var again := HitOn(cfg, ShelvesAfter(cfg, refused, others), ip, later).1;
            v.Blocked? ==>
              && (later >= now + 1000 * v.retryAfterSec ==> again.Pass?)
              && (later <= now + 1000 * (v.retryAfterSec - 1) ==> again.Blocked?)
  {
    var (refused, v) := HitOn(cfg, b, ip, now);
    HitAgrees(cfg, b, l, ip, now);
    if v.Blocked? {
      var waiting := l.(clock := now);
      ClockAfter(cfg, waiting, others, later);
      CallsAgree(cfg, refused, waiting, others);
      OthersLeaveItAlone(cfg, waiting, others, ip);
      HitAgrees(cfg, ShelvesAfter(cfg, refused, others), LogsAfter(cfg, waiting, others), ip, later);
      LogIsInOrder(cfg, b, l, ip);
      RefusalRetryAfterIsExact(At(l.accepted, ip), cfg.windowMs, cfg.maxRequestsPerWindow, now, later);
    }
  }

  lemma LogIsInOrder(cfg: Config, b: Shelves, l: Logs, ip: string)
    requires Remembers(cfg, b, l)
    ensures var log := At(l.accepted, ip);
            && Sorted(log) && (forall i :: 0 <= i < |log| ==> log[i] <= l.clock)
            && Bounded(log, cfg.windowMs, cfg.maxRequestsPerWindow)
  {
    assert Represents(At(l.accepted, ip), At(b.general, ip), cfg.windowMs, l.clock);
    assert Bounded(At(l.accepted, ip), cfg.windowMs, cfg.maxRequestsPerWindow);
  }

  // ---- the auth gate ---------------------------------------------------------

  datatype TokenCheck = Accepted | BadToken | NoToken

  datatype GateAnswer = Proceed | Refused401 | Refused429(retryAfterSec: int)

  /** Token first, then the brute-force guard, then the record of the failure, which reads the clock once more. */
  function GateOn(cfg: Config, b: Shelves, ip: string, token: TokenCheck, now: int, recordedAt: int)
    : (Shelves, GateAnswer)
  {
    if token == Accepted then (ClearOn(b, ip), Proceed)
    else
      var (asked, v) := AskOn(cfg, b, ip, now);
      match v
      case Blocked(r) => (asked, Refused429(r))
      case Pass => (if token == BadToken then FailOn(asked, ip, recordedAt) else asked, Refused401)
  }

  method Gate(limiter: RateLimiter, ip: string, token: TokenCheck, now: int, recordedAt: int) returns (a: GateAnswer)
    modifies limiter
    ensures (limiter.View(), a) == GateOn(limiter.cfg, old(limiter.View()), ip, token, now, recordedAt)
  {
    if token == Accepted {
      limiter.ClearAuthFailures(ip);
      return Proceed;
    }
    var blocked := limiter.AuthBlocked(ip, now);
    if blocked.Blocked? {
      return Refused429(blocked.retryAfterSec);
    }
    if token == BadToken {
      limiter.RecordAuthFailure(ip, recordedAt);
    }
    return Refused401;
  }

  /** What a gate request does to the logs. */
  function GateLogs(cfg: Config, l: Logs, ip: string, token: TokenCheck, now: int, recordedAt: int): Logs {
    if token == Accepted then l.(failures := l.failures - {ip})
    else if Judge(At(l.failures, ip), cfg.authWindowMs, cfg.maxAuthFailures, now).Blocked? || token == NoToken then
      l.(clock := now)
    else FailedOn(l, ip, recordedAt)
  }

  ghost predicate Gated(cfg: Config, b: Shelves, l: Logs) {
    Remembers(cfg, b, l) && AllBounded(l.failures, cfg.authWindowMs, cfg.maxAuthFailures)
  }

  /** As long as failures are recorded through the gate only, it answers by the log of failures and never lets more than
      the maximum of them into a window. */
  lemma GateAgrees(cfg: Config, b: Shelves, l: Logs, ip: string, token: TokenCheck, now: int, recordedAt: int)
    requires Gated(cfg, b, l) && l.clock <= now <= recordedAt
    ensures Gated(cfg, GateOn(cfg, b, ip, token, now, recordedAt).0, GateLogs(cfg, l, ip, token, now, recordedAt))
    ensures GateOn(cfg, b, ip, token, now, recordedAt).1 ==
            if token == Accepted then Proceed
            else match Judge(At(l.failures, ip), cfg.authWindowMs, cfg.maxAuthFailures, now)
                 case Blocked(r) => Refused429(r)
                 case Pass => Refused401
  {
    if token == Accepted {
      AllBoundedRemove(l.failures, cfg.authWindowMs, cfg.maxAuthFailures, ip);
      ClearAgrees(cfg, b, l, ip);
    } else {
      AskAgrees(cfg, b, l, ip, now);
      if token == BadToken && AskOn(cfg, b, ip, now).1.Pass? {
        LiveIsMonotone(At(l.failures, ip), now - cfg.authWindowMs, recordedAt - cfg.authWindowMs);
        AllBoundedAppend(l.failures, cfg.authWindowMs, cfg.maxAuthFailures, ip, recordedAt);
        FailAgrees(cfg, AskOn(cfg, b, ip, now).0, l.(clock := now), ip, recordedAt);
      }
    }
  }

  /** What the server does with the limiter: count a request in general, or put one to the gate. */
  datatype Request =
    | Counted(ip: string, at: int)
    | Request(ip: string, token: TokenCheck, at: int, recordedAt: int)

  /** The last clock reading of a request. */
  function Done(r: Request): int {
    if r.Counted? then r.at else r.recordedAt
  }

  /** Requests in the order of the clock. */
  predicate RequestsInOrder(rs: seq<Request>, clock: int)
    decreases rs
  {
    rs == [] || (clock <= rs[0].at <= Done(rs[0]) && RequestsInOrder(rs[1..], Done(rs[0])))
  }

  function Serve(cfg: Config, b: Shelves, r: Request): Shelves {
    match r
    case Counted(ip, at) => HitOn(cfg, b, ip, at).0
    case Request(ip, token, at, recordedAt) => GateOn(cfg, b, ip, token, at, recordedAt).0
  }

  function ServeLogs(cfg: Config, l: Logs, r: Request): Logs {
    match r
    case Counted(ip, at) => AcceptOn(cfg, l, ip, at).0
    case Request(ip, token, at, recordedAt) => GateLogs(cfg, l, ip, token, at, recordedAt)
  }

  function ThroughGate(cfg: Config, b: Shelves, rs: seq<Request>): Shelves
    decreases rs
  {
    if rs == [] then b else ThroughGate(cfg, Serve(cfg, b, rs[0]), rs[1..])
  }

  function ThroughLogs(cfg: Config, l: Logs, rs: seq<Request>): Logs
    decreases rs
  {
    if rs == [] then l else ThroughLogs(cfg, ServeLogs(cfg, l, rs[0]), rs[1..])
  }

  lemma ServeAgrees(cfg: Config, b: Shelves, l: Logs, r: Request)
    requires Gated(cfg, b, l) && l.clock <= r.at <= Done(r)
    ensures Gated(cfg, Serve(cfg, b, r), ServeLogs(cfg, l, r))
  {
    match r {
      case Counted(ip, at) => HitAgrees(cfg, b, l, ip, at);
      case Request(ip, token, at, recordedAt) => GateAgrees(cfg, b, l, ip, token, at, recordedAt);
    }
  }

  lemma {:induction false} RequestsAgree(cfg: Config, b: Shelves, l: Logs, rs: seq<Request>)
    requires Gated(cfg, b, l) && RequestsInOrder(rs, l.clock)
    ensures Gated(cfg, ThroughGate(cfg, b, rs), ThroughLogs(cfg, l, rs))
    decreases rs
  {
    if rs != [] {
      var next := ServeLogs(cfg, l, rs[0]);
      ServeAgrees(cfg, b, l, rs[0]);
      EarlierClock(rs[1..], next.clock, Done(rs[0]));
      RequestsAgree(cfg, Serve(cfg, b, rs[0]), next, rs[1..]);
    }
  }

  lemma EarlierClock(rs: seq<Request>, early: int, late: int)
    requires RequestsInOrder(rs, late) && early <= late
    ensures RequestsInOrder(rs, early)
  {
  }

  /** All done by then, and none put to the gate by the address. */
  predicate Elsewhere(rs: seq<Request>, ip: string, later: int) {
    forall i :: 0 <= i < |rs| ==> (rs[i].Request? ==> rs[i].ip != ip) && Done(rs[i]) <= later
  }

  lemma {:induction false} OtherRequests(cfg: Config, l: Logs, rs: seq<Request>, ip: string, later: int)
    requires RequestsInOrder(rs, l.clock) && l.clock <= later && Elsewhere(rs, ip, later)
    ensures At(ThroughLogs(cfg, l, rs).failures, ip) == At(l.failures, ip) && ThroughLogs(cfg, l, rs).clock <= later
    decreases rs
  {
    if rs != [] {
      var next := ServeLogs(cfg, l, rs[0]);
      EarlierClock(rs[1..], next.clock, Done(rs[0]));
      OtherRequests(cfg, next, rs[1..], ip, later);
    }
  }

  /** The gate's retry-after is exact: told to wait `r` seconds, an address that puts nothing to the gate meanwhile is
      looked at again, and not turned away for its past, after `r` seconds, and turned away up to `r - 1` seconds -
      whatever else the server counts and the gate sees before, in between and from others. */
  lemma GateRetryAfterIsExact(cfg: Config, clock: int, earlier: seq<Request>, refused: Request, others: seq<Request>,
                              again: Request)
    requires refused.Request? && again.Request? && cfg.maxAuthFailures >= 1
    requires refused.token != Accepted && again.token != Accepted && again.ip == refused.ip
    requires RequestsInOrder(earlier, clock)
             && ThroughLogs(cfg, NoLogs(clock), earlier).clock <= refused.at <= refused.recordedAt
    requires RequestsInOrder(others, refused.at) && refused.at <= again.at <= again.recordedAt
    requires Elsewhere(others, refused.ip, again.at)
    ensures var b := ThroughGate(cfg, EMPTY, earlier);
            var (after, a) := GateOn(cfg, b, refused.ip, refused.token, refused.at, refused.recordedAt);
            var c := GateOn(cfg, ThroughGate(cfg, after, others), again.ip, again.token, again.at, again.recordedAt).1;
            a.Refused429? ==>
              && (again.at >= refused.at + 1000 * a.retryAfterSec ==> c == Refused401)
              && (again.at <= refused.at + 1000 * (a.retryAfterSec - 1) ==> c.Refused429?)
  {
    NothingYet(cfg, clock);
    RequestsAgree(cfg, EMPTY, NoLogs(clock), earlier);
    GateRefusedThenLater(cfg, ThroughGate(cfg, EMPTY, earlier), ThroughLogs(cfg, NoLogs(clock), earlier), refused,
                         others, again);
  }

  lemma GateRefusedThenLater(cfg: Config, b: Shelves, l: Logs, refused: Request, others: seq<Request>, again: Request)
    requires refused.Request? && again.Request? && cfg.maxAuthFailures >= 1
    requires Gated(cfg, b, l) && l.clock <= refused.at <= refused.recordedAt
    requires refused.token != Accepted && again.token != Accepted && again.ip == refused.ip
    requires RequestsInOrder(others, refused.at) && refused.at <= again.at <= again.recordedAt
    requires Elsewhere(others, refused.ip, again.at)
    ensures var (after, a) := GateOn(cfg, b, refused.ip, refused.token, refused.at, refused.recordedAt);
            var c := GateOn(cfg, ThroughGate(cfg, after, others), again.ip, again.token, again.at, again.recordedAt).1;
            a.Refused429? ==>
              && (again.at >= refused.at + 1000 * a.retryAfterSec ==> c == Refused401)
              && (again.at <= refused.at + 1000 * (a.retryAfterSec - 1) ==> c.Refused429?)
  {
    var ip := refused.ip;
    var (after, a) := GateOn(cfg, b, ip, refused.token, refused.at, refused.recordedAt);
    GateAgrees(cfg, b, l, ip, refused.token, refused.at, refused.recordedAt);
    if a.Refused429? {
      var waiting := l.(clock := refused.at);
      RequestsAgree(cfg, after, waiting, others);
      OtherRequests(cfg, waiting, others, ip, again.at);
      var since := ThroughLogs(cfg, waiting, others);
      GateAgrees(cfg, ThroughGate(cfg, after, others), since, ip, again.token, again.at, again.recordedAt);
      FailuresInOrder(cfg, b, l, ip);
      RefusalRetryAfterIsExact(At(l.failures, ip), cfg.authWindowMs, cfg.maxAuthFailures, refused.at, again.at);
    }
  }

  lemma FailuresInOrder(cfg: Config, b: Shelves, l: Logs, ip: string)
    requires Gated(cfg, b, l)
    ensures var log := At(l.failures, ip);
            && Sorted(log) && (forall i :: 0 <= i < |log| ==> log[i] <= l.clock)
            && Bounded(log, cfg.authWindowMs, cfg.maxAuthFailures)
  {
    assert Represents(At(l.failures, ip), At(b.authFail, ip), cfg.authWindowMs, l.clock);
    assert Bounded(At(l.failures, ip), cfg.authWindowMs, cfg.maxAuthFailures);
  }

  /** Failures recorded without asking first can over-fill the window, and then the wait announced is too short: a
      limiter that allows one failure in ten seconds, two failures at 0 and 5 seconds, and after the five seconds
      announced it still blocks. */
  lemma UngatedRetryAfterFails(ip: string)
    ensures Answers(Config(60_000, 1, 10_000, 1), EMPTY,
                    [Fails(ip, 0), Fails(ip, 5000), AsksAuth(ip, 5000), AsksAuth(ip, 10_000)])
            == [None, None, Some(Blocked(5)), Some(Blocked(5))]
  {
    var cfg := Config(60_000, 1, 10_000, 1);
    var b := FailOn(FailOn(EMPTY, ip, 0), ip, 5000);
    var l := FailedOn(FailedOn(NoLogs(0), ip, 0), ip, 5000);
    NothingYet(cfg, 0);
    FailAgrees(cfg, EMPTY, NoLogs(0), ip, 0);
    FailAgrees(cfg, FailOn(EMPTY, ip, 0), FailedOn(NoLogs(0), ip, 0), ip, 5000);
    assert At(l.failures, ip) == [0, 5000];
    TwoFailures();
    AskAgrees(cfg, b, l, ip, 5000);
    AskAgrees(cfg, AskOn(cfg, b, ip, 5000).0, l, ip, 10_000);
    FourCalls(cfg, EMPTY, Fails(ip, 0), Fails(ip, 5000), AsksAuth(ip, 5000), AsksAuth(ip, 10_000));
  }

  lemma FourCalls(cfg: Config, s: Shelves, a: Call, b: Call, c: Call, d: Call)
    ensures var s1 := Answer(cfg, s, a).0;
            var s2 := Answer(cfg, s1, b).0;
            var s3 := Answer(cfg, s2, c).0;
            Answers(cfg, s, [a, b, c, d])
              == [Answer(cfg, s, a).1, Answer(cfg, s1, b).1, Answer(cfg, s2, c).1, Answer(cfg, s3, d).1]
  {
    var s1 := Answer(cfg, s, a).0;
    var s2 := Answer(cfg, s1, b).0;
    var s3 := Answer(cfg, s2, c).0;
    FirstAnswer(cfg, s, a, [b, c, d]);
    FirstAnswer(cfg, s1, b, [c, d]);
    FirstAnswer(cfg, s2, c, [d]);
    FirstAnswer(cfg, s3, d, []);
    Conses(a, b, c, d);
    Conses(Answer(cfg, s, a).1, Answer(cfg, s1, b).1, Answer(cfg, s2, c).1, Answer(cfg, s3, d).1);
  }

  lemma Conses<T>(a: T, b: T, c: T, d: T)
    ensures [a] + [b, c, d] == [a, b, c, d] && [b] + [c, d] == [b, c, d] && [c] + [d] == [c, d] && [d] + [] == [d]
  {
  }

  lemma FirstAnswer(cfg: Config, s: Shelves, call: Call, rest: seq<Call>)
    ensures Answers(cfg, s, [call] + rest) == [Answer(cfg, s, call).1] + Answers(cfg, Answer(cfg, s, call).0, rest)
  {
    assert ([call] + rest)[1..] == rest;
  }

  lemma TwoFailures()
    ensures Judge([0, 5000], 10_000, 1, 5000) == Blocked(5) && Judge([0, 5000], 10_000, 1, 10_000) == Blocked(5)
  {
    var log := [0, 5000];
    assert log[..1] == [0] && log[..1][..0] == [];
    assert Live(log, -5000) == 2 && Live(log, 0) == 1;
    assert log[1..] == [5000];
    assert Oldest(log, -5000, 5000) == 0 && Oldest(log, 0, 10_000) == 5000;
  }
}
