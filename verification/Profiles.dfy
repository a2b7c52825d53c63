/** Versioned operator profiles over the preference table: `src/learning/profileStore.ts`,
    `src/learning/service.ts` and the eval gate of `src/learning/eval.ts`. */
module Profiles {
  import opened Text

  datatype Body = Body(scope: string, guidance: string)

  datatype Profile = Profile(body: Body, version: nat, createdAt: int)

  datatype EvalReport = EvalReport(total: int, delta: int)

  datatype Draft = Draft(scope: string, body: Body, eval: Option<EvalReport>)

  /** A stored value; JSON encoding is left out. */
  datatype Value = Snapshot(profile: Profile) | Active(scope: string, version: nat, at: int) | Pending(draft: Draft)
      | Bank(items: int)

  type Prefs = map<string, Value>

  const VERSION := "profile.version."
  const ACTIVE := "profile.active."
  const DRAFT := "profile.draft."
  const BANK := "examplebank."

  function VersionPrefix(scope: string): string {
    VERSION + scope + "#"
  }

  function VersionKey(scope: string, n: nat): string {
    VersionPrefix(scope) + Decimal(n)
  }

  // ---- listing by prefix -----------------------------------------------------

  /** SQLite's `LIKE 'prefix%'`: ASCII case does not matter. */
  predicate Matches(key: string, prefix: string) {
    |prefix| <= |key| && Lower(key[..|prefix|]) == Lower(prefix)
  }

  predicate AllDigits(s: string) {
    s != "" && forall i :: 0 <= i < |s| ==> '0' <= s[i] <= '9'
  }

  /** The number in a listed key's suffix; anything but digits is not a number. */
  function NumberAt(key: string, prefix: string): Option<int>
    requires |prefix| <= |key|
  {
    if AllDigits(key[|prefix|..]) then Some(ParseDigits(key[|prefix|..])) else None
  }

  /** `n` is the version number of a row listed for the scope. */
  predicate Listed(prefs: Prefs, scope: string, key: string, n: int) {
    key in prefs && Matches(key, VersionPrefix(scope)) && NumberAt(key, VersionPrefix(scope)) == Some(n)
  }

  ghost predicate SomeListed(prefs: Prefs, scope: string, n: int) {
    exists key :: Listed(prefs, scope, key, n)
  }

  /** One more than the greatest listed number. */
  ghost predicate IsNext(prefs: Prefs, scope: string, v: int) {
    && v >= 1
    && (forall key, n :: Listed(prefs, scope, key, n) ==> n < v)
    && (v > 1 ==> SomeListed(prefs, scope, v - 1))
  }

  /** The eval gate: blocks only on evidence of a regression. */
  predicate GateBlocks(report: Option<EvalReport>, enabled: bool) {
    enabled && report.Some? && report.value.total > 0 && report.value.delta < 0
  }

  // ---- what each operation does to the table ---------------------------------

  datatype ApproveResult = Approved(profile: Profile) | NoDraft | GateBlocked(delta: int)

  function GetDraft(prefs: Prefs, scope: string): Option<Draft> {
    var key := DRAFT + scope;
    if key in prefs && prefs[key].Pending? then Some(prefs[key].draft) else None
  }

  function Snapshotted(prefs: Prefs, p: Profile, now: int): Prefs {
    var stored := prefs[VersionKey(p.body.scope, p.version) := Snapshot(p)];
    stored[ACTIVE + p.body.scope := Active(p.body.scope, p.version, now)]
  }

  ghost predicate Approves(prefs: Prefs, gate: bool, scope: string, force: bool, now: int, prefs': Prefs,
                           r: ApproveResult) {
    var draft := GetDraft(prefs, scope);
    if draft == None then r == NoDraft && prefs' == prefs
    else if !force && GateBlocks(draft.value.eval, gate)
      then r == GateBlocked(draft.value.eval.value.delta) && prefs' == prefs
    else
      && r.Approved?
      && r.profile.body == draft.value.body && r.profile.createdAt == now
      && IsNext(prefs, draft.value.body.scope, r.profile.version)
      && prefs' == Snapshotted(prefs, r.profile, now) - {DRAFT + scope}
  }

  predicate HasVersion(prefs: Prefs, scope: string, n: nat) {
    VersionKey(scope, n) in prefs && prefs[VersionKey(scope, n)].Snapshot?
  }

  // ---- the store and the service ---------------------------------------------

  class ProfileStore {
    var prefs: Prefs

    constructor ()
      ensures prefs == map[]
    {
      prefs := map[];
    }

    method NextVersion(scope: string) returns (v: nat)
      ensures IsNext(prefs, scope, v)
    {
      var prefix := VersionPrefix(scope);
      var rest := prefs.Keys;
      var max := 0;
      while rest != {}
        invariant rest <= prefs.Keys && max >= 0
        invariant forall key, n :: Listed(prefs, scope, key, n) && key !in rest ==> n <= max
        invariant max > 0 ==> SomeListed(prefs, scope, max)
        decreases |rest|
      {
        var key :| key in rest;
        rest := rest - {key};
        if Matches(key, prefix) {
          var n := NumberAt(key, prefix);
          if n.Some? && n.value > max {
            max := n.value;
            assert Listed(prefs, scope, key, max);
          }
        }
      }
      v := max + 1;
    }

    /** Store a body as the next version of its scope and point the scope at it. */
    method SaveVersionAndActivate(body: Body, now: int) returns (profile: Profile)
      modifies this
      ensures profile.body == body && profile.createdAt == now
      ensures IsNext(old(prefs), body.scope, profile.version)
      ensures prefs == Snapshotted(old(prefs), profile, now)
    {
      var version := NextVersion(body.scope);
      profile := Profile(body, version, now);
      prefs := prefs[VersionKey(body.scope, version) := Snapshot(profile)];
      var ok := ActivateVersion(body.scope, version, now);
    }

    /** Repoint a scope to one of its versions; false when there is no such version. */
    method ActivateVersion(scope: string, version: nat, now: int) returns (ok: bool)
      modifies this
      ensures ok == HasVersion(old(prefs), scope, version)
      ensures prefs == if ok then old(prefs)[ACTIVE + scope := Active(scope, version, now)] else old(prefs)
    {
      var key := VersionKey(scope, version);
      ok := key in prefs && prefs[key].Snapshot?;
      if ok {
        prefs := prefs[ACTIVE + scope := Active(scope, version, now)];
      }
    }
  }

  class LearningService {
    const profiles: ProfileStore
    const evalGate: bool

    constructor (profiles: ProfileStore, evalGate: bool)
      ensures this.profiles == profiles && this.evalGate == evalGate
    {
      this.profiles := profiles;
      this.evalGate := evalGate;
    }

    /** Promote the pending draft, unless the eval gate blocks it. */
    method Approve(scope: string, force: bool, now: int) returns (r: ApproveResult)
      modifies profiles
      ensures Approves(old(profiles.prefs), evalGate, scope, force, now, profiles.prefs, r)
    {
      var draft := GetDraft(profiles.prefs, scope);
      if draft == None {
        return NoDraft;
      }
      if !force && GateBlocks(draft.value.eval, evalGate) {
        return GateBlocked(draft.value.eval.value.delta);
      }
      var profile := profiles.SaveVersionAndActivate(draft.value.body, now);
      profiles.prefs := profiles.prefs - {DRAFT + scope};
      return Approved(profile);
    }

    method Reject(scope: string)
      modifies profiles
      ensures profiles.prefs == old(profiles.prefs) - {DRAFT + scope}
    {
      profiles.prefs := profiles.prefs - {DRAFT + scope};
    }

    method Revert(scope: string, version: nat, now: int) returns (ok: bool)
      modifies profiles
      ensures ok == HasVersion(old(profiles.prefs), scope, version)
      ensures profiles.prefs == if ok then old(profiles.prefs)[ACTIVE + scope := Active(scope, version, now)]
              else old(profiles.prefs)
    {
      ok := profiles.ActivateVersion(scope, version, now);
    }

    method SaveDraft(draft: Draft)
      modifies profiles
      ensures profiles.prefs == old(profiles.prefs)[DRAFT + draft.scope := Pending(draft)]
    {
      profiles.prefs := profiles.prefs[DRAFT + draft.scope := Pending(draft)];
    }
  }

  // ---- keys ------------------------------------------------------------------

  lemma KeyParts(other: string, m: nat)
    ensures var key, hash := VersionKey(other, m), |VERSION| + |other|;
            && hash + 1 < |key| && key[hash] == '#' && key[hash + 1..] == Decimal(m)
            && key[..hash + 1] == VersionPrefix(other)
            && forall i :: hash < i < |key| ==> '0' <= key[i] <= '9'
  {
    var key, hash := VersionKey(other, m), |VERSION| + |other|;
    assert forall i :: hash < i < |key| ==> key[i] == Decimal(m)[i - hash - 1];
  }

  lemma ListedHasLength(other: string, m: nat, scope: string, n: int)
    requires Matches(VersionKey(other, m), VersionPrefix(scope))
             && NumberAt(VersionKey(other, m), VersionPrefix(scope)) == Some(n)
    ensures |other| == |scope|
  {
    var key, prefix := VersionKey(other, m), VersionPrefix(scope);
    KeyParts(other, m);
    MatchedChar(key, prefix, |prefix| - 1);
    OnlyHash(key, |VERSION| + |other|, |prefix|);
  }

  /** When all behind position `hash` and all from position `l` on is digits, a '#' just before `l` is that
      of `hash`. */
  lemma OnlyHash(key: string, hash: nat, l: nat)
    requires 0 < l < |key| && hash < |key| && key[hash] == '#'
    requires forall i :: hash < i < |key| ==> '0' <= key[i] <= '9'
    requires AllDigits(key[l..]) && LowerChar(key[l - 1]) == '#'
    ensures l == hash + 1
  {
    assert forall i :: l <= i < |key| ==> key[i] == key[l..][i - l];
  }

  /** A listed version row belongs to a scope equal up to ASCII case and carries its own number. */
  lemma ListedVersion(scope: string, other: string, m: nat, n: int)
    ensures Matches(VersionKey(other, m), VersionPrefix(scope))
            && NumberAt(VersionKey(other, m), VersionPrefix(scope)) == Some(n)
            <==> Lower(other) == Lower(scope) && n == m
  {
    var key, prefix := VersionKey(other, m), VersionPrefix(scope);
    KeyParts(other, m);
    DecimalRoundTrip(m);
    if Matches(key, prefix) && NumberAt(key, prefix) == Some(n) {
      ListedHasLength(other, m, scope, n);
      SameFold(other, scope, key, prefix);
    }
    if Lower(other) == Lower(scope) && n == m {
      assert |other| == |Lower(other)| == |Lower(scope)| == |scope|;
      FoldPrefix(other, scope);
    }
  }

  lemma SameFold(other: string, scope: string, key: string, prefix: string)
    requires prefix == VersionPrefix(scope) && |other| == |scope| && |prefix| <= |key|
             && key[..|prefix|] == VersionPrefix(other)
    requires Lower(key[..|prefix|]) == Lower(prefix)
    ensures Lower(other) == Lower(scope)
  {
    var k := |VERSION|;
    forall i | 0 <= i < |other|
      ensures LowerChar(other[i]) == LowerChar(scope[i])
    {
      assert VersionPrefix(other)[k + i] == other[i] && prefix[k + i] == scope[i];
      assert Lower(key[..|prefix|])[k + i] == Lower(prefix)[k + i];
    }
  }

  lemma FoldPrefix(other: string, scope: string)
    requires Lower(other) == Lower(scope)
    ensures Lower(VersionPrefix(other)) == Lower(VersionPrefix(scope))
  {
    assert |other| == |Lower(other)| == |Lower(scope)| == |scope|;
    var k := |VERSION|;
    forall i | 0 <= i < |VersionPrefix(scope)|
      ensures LowerChar(VersionPrefix(other)[i]) == LowerChar(VersionPrefix(scope)[i])
    {
      if k <= i < k + |scope| {
        assert Lower(other)[i - k] == Lower(scope)[i - k];
      }
    }
  }

  lemma MatchedChar(key: string, prefix: string, i: nat)
    requires Matches(key, prefix) && i < |prefix|
    ensures LowerChar(key[i]) == LowerChar(prefix[i])
  {
    assert Lower(key[..|prefix|])[i] == Lower(prefix)[i];
  }

  lemma OtherKindsUnlisted(key: string, tail: string, scope: string)
    requires key == ACTIVE + tail || key == DRAFT + tail || key == BANK + tail
    ensures !Matches(key, VersionPrefix(scope))
    ensures forall s, n: nat :: key != VersionKey(s, n)
  {
    if Matches(key, VersionPrefix(scope)) {
      MatchedChar(key, VersionPrefix(scope), if key == BANK + tail then 0 else 8);
      assert false;
    }
    forall s, n: nat
      ensures key != VersionKey(s, n)
    {
      assert VersionKey(s, n)[8] == 'v' && VersionKey(s, n)[0] == 'p';
    }
  }

  lemma VersionKeyInjective(s: string, m: nat, t: string, n: nat)
    requires VersionKey(s, m) == VersionKey(t, n)
    ensures s == t && m == n
  {
    ListedVersion(s, s, m, m);
    ListedVersion(s, t, n, m);
    assert |s| == |Lower(s)| == |Lower(t)| == |t|;
    assert VersionKey(s, m)[|VERSION|..|VERSION| + |s|] == s;
    assert VersionKey(t, n)[|VERSION|..|VERSION| + |t|] == t;
  }

  // ---- every history ---------------------------------------------------------

  /** What one stored entry must look like. */
  ghost predicate Entry(prefs: Prefs, key: string)
    requires key in prefs
  {
    match prefs[key]
    case Snapshot(p) => p.version >= 1 && key == VersionKey(p.body.scope, p.version)
    case Active(scope, version, _) => key == ACTIVE + scope && HasVersion(prefs, scope, version)
    case Pending(d) => key == DRAFT + d.scope
    case Bank(_) => exists scope :: key == BANK + scope
  }

  /** Scopes equal up to ASCII case share one numbering: each number is used by at most one of them. */
  ghost predicate NumbersOnce(prefs: Prefs) {
    forall s, t, n: nat :: HasVersion(prefs, s, n) && HasVersion(prefs, t, n) && Lower(s) == Lower(t) ==> s == t
  }

  /** Some scope equal to `s` up to ASCII case has version `n`. */
  ghost predicate Taken(prefs: Prefs, s: string, n: nat) {
    exists t :: Lower(t) == Lower(s) && HasVersion(prefs, t, n)
  }

  /** ... and no number is skipped. */
  ghost predicate NoGaps(prefs: Prefs) {
    forall s, n: nat, m: nat :: HasVersion(prefs, s, n) && 1 <= m <= n ==> Taken(prefs, s, m)
  }

  ghost predicate Inv(prefs: Prefs) {
    && (forall key :: key in prefs ==> Entry(prefs, key))
    && NumbersOnce(prefs)
    && NoGaps(prefs)
  }

  /** The numbers listed for a scope are those taken by the scopes equal to it up to case. */
  lemma ListedIsTaken(prefs: Prefs, scope: string, key: string, n: int)
    requires Inv(prefs)
    requires Listed(prefs, scope, key, n)
    ensures n >= 1 && Taken(prefs, scope, n)
  {
    assert Entry(prefs, key);
    match prefs[key] {
      case Snapshot(p) =>
        ListedVersion(scope, p.body.scope, p.version, n);
        assert HasVersion(prefs, p.body.scope, n);
      case Active(s, _, _) => OtherKindsUnlisted(key, s, scope); assert false;
      case Pending(d) => OtherKindsUnlisted(key, d.scope, scope); assert false;
      case Bank(_) =>
        var s :| key == BANK + s;
        OtherKindsUnlisted(key, s, scope);
        assert false;
    }
  }

  lemma TakenIsListed(prefs: Prefs, scope: string, t: string, n: nat)
    requires HasVersion(prefs, t, n) && Lower(t) == Lower(scope)
    ensures Listed(prefs, scope, VersionKey(t, n), n)
  {
    ListedVersion(scope, t, n, n);
  }

  /** The next number is free in the whole case class, and it closes no gap and opens none. */
  lemma NextIsFresh(prefs: Prefs, scope: string, v: nat)
    requires Inv(prefs) && IsNext(prefs, scope, v)
    ensures forall t, n: nat :: HasVersion(prefs, t, n) && Lower(t) == Lower(scope) ==> n < v
    ensures forall m: nat :: 1 <= m < v ==> Taken(prefs, scope, m)
    ensures VersionKey(scope, v) !in prefs
  {
    forall t, n: nat | HasVersion(prefs, t, n) && Lower(t) == Lower(scope)
      ensures n < v
    {
      TakenIsListed(prefs, scope, t, n);
    }
    forall m: nat | 1 <= m < v
      ensures Taken(prefs, scope, m)
    {
      var key :| Listed(prefs, scope, key, v - 1);
      ListedIsTaken(prefs, scope, key, v - 1);
      var t :| Lower(t) == Lower(scope) && HasVersion(prefs, t, v - 1);
      assert Taken(prefs, t, m);
      var u :| Lower(u) == Lower(t) && HasVersion(prefs, u, m);
    }
    if VersionKey(scope, v) in prefs {
      ListedVersion(scope, scope, v, v);
      assert Listed(prefs, scope, VersionKey(scope, v), v);
      assert false;
    }
  }
}
