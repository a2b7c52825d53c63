/** Every history of the profile store: which operations can follow one another, and what none of them can break. */
module ProfileHistory {
  import opened Text
  import opened Profiles

  datatype Op =
    | Propose(draft: Draft)
    | Approval(scope: string, force: bool)
    | Rejection(scope: string)
    | Reversion(scope: string, version: nat)
    | BankWrite(scope: string, items: int)

  /** What one operation at time `now` makes of the preference table. */
  ghost predicate Step(gate: bool, prefs: Prefs, op: Op, now: int, prefs': Prefs) {
    match op
    case Propose(d) => prefs' == prefs[DRAFT + d.scope := Pending(d)]
    case Approval(scope, force) => exists r :: Approves(prefs, gate, scope, force, now, prefs', r)
    case Rejection(scope) => prefs' == prefs - {DRAFT + scope}
    case Reversion(scope, version) =>
      prefs' ==
        if HasVersion(prefs, scope, version) then prefs[ACTIVE + scope := Active(scope, version, now)] else prefs
    case BankWrite(scope, items) => prefs' == prefs[BANK + scope := Bank(items)]
  }

  /** The tables met by running `ops` at `times` from an empty table. */
  ghost predicate History(gate: bool, tables: seq<Prefs>, ops: seq<Op>, times: seq<int>) {
    && |tables| == |ops| + 1 && |times| == |ops|
    && tables[0] == map[]
    && forall i :: 0 <= i < |ops| ==> Step(gate, tables[i], ops[i], times[i], tables[i + 1])
  }

  // ---- what a step does to the versions --------------------------------------

  ghost predicate SameVersions(prefs: Prefs, prefs': Prefs) {
    forall s, n: nat :: HasVersion(prefs', s, n) <==> HasVersion(prefs, s, n)
  }

  ghost predicate KeepsSnapshots(prefs: Prefs, prefs': Prefs) {
    forall key :: key in prefs && prefs[key].Snapshot? ==> key in prefs' && prefs'[key] == prefs[key]
  }

  lemma SameVersionsKeepNumbering(prefs: Prefs, prefs': Prefs)
    requires NumbersOnce(prefs) && NoGaps(prefs) && SameVersions(prefs, prefs')
    ensures NumbersOnce(prefs') && NoGaps(prefs')
  {
    forall s, n: nat, m: nat | HasVersion(prefs', s, n) && 1 <= m <= n
      ensures Taken(prefs', s, m)
    {
      assert Taken(prefs, s, m);
      var t :| Lower(t) == Lower(s) && HasVersion(prefs, t, m);
      assert HasVersion(prefs', t, m);
    }
  }

  /** `key` is not a version key, so writing or deleting it touches no version. */
  ghost predicate Aside(key: string) {
    exists tail :: key == ACTIVE + tail || key == DRAFT + tail || key == BANK + tail
  }

  lemma AsideIsUnlisted(key: string)
    requires Aside(key)
    ensures forall s, n: nat :: key != VersionKey(s, n)
  {
    var tail :| key == ACTIVE + tail || key == DRAFT + tail || key == BANK + tail;
    OtherKindsUnlisted(key, tail, "");
  }

  lemma SnapshotsAreNotAside(prefs: Prefs, key: string)
    requires Inv(prefs) && Aside(key) && key in prefs
    ensures !prefs[key].Snapshot?
  {
    AsideIsUnlisted(key);
    assert Entry(prefs, key);
  }

  lemma PutKeepsInv(prefs: Prefs, key: string, value: Value)
    requires Inv(prefs) && Aside(key) && !value.Snapshot?
    requires Entry(prefs[key := value], key)
    ensures Inv(prefs[key := value]) && KeepsSnapshots(prefs, prefs[key := value])
  {
    var prefs' := prefs[key := value];
    AsideIsUnlisted(key);
    if key in prefs { SnapshotsAreNotAside(prefs, key); }
    assert SameVersions(prefs, prefs');
    SameVersionsKeepNumbering(prefs, prefs');
    forall k | k in prefs'
      ensures Entry(prefs', k)
    {
      if k != key { assert Entry(prefs, k); }
    }
  }

  lemma DropKeepsInv(prefs: Prefs, scope: string)
    requires Inv(prefs)
    ensures Inv(prefs - {DRAFT + scope}) && KeepsSnapshots(prefs, prefs - {DRAFT + scope})
  {
    var key := DRAFT + scope;
    var prefs' := prefs - {key};
    assert Aside(key);
    AsideIsUnlisted(key);
    if key in prefs { SnapshotsAreNotAside(prefs, key); }
    assert SameVersions(prefs, prefs');
    SameVersionsKeepNumbering(prefs, prefs');
    forall k | k in prefs'
      ensures Entry(prefs', k)
    {
      assert Entry(prefs, k);
    }
  }

  /** Storing the next version adds that version and no other. */
  lemma SaveAddsOneVersion(prefs: Prefs, p: Profile, now: int)
    ensures forall s, n: nat :: HasVersion(Snapshotted(prefs, p, now), s, n)
                            <==> HasVersion(prefs, s, n) || (s == p.body.scope && n == p.version)
  {
    var prefs' := Snapshotted(prefs, p, now);
    var key, pointer := VersionKey(p.body.scope, p.version), ACTIVE + p.body.scope;
    OtherKindsUnlisted(pointer, p.body.scope, "");
    forall s, n: nat
      ensures HasVersion(prefs', s, n) <==> HasVersion(prefs, s, n) || (s == p.body.scope && n == p.version)
    {
      assert VersionKey(s, n) != pointer;
      if VersionKey(s, n) == key { VersionKeyInjective(s, n, p.body.scope, p.version); }
    }
  }

  lemma SaveKeepsNumbering(prefs: Prefs, p: Profile, now: int)
    requires Inv(prefs) && IsNext(prefs, p.body.scope, p.version)
    ensures NumbersOnce(Snapshotted(prefs, p, now)) && NoGaps(Snapshotted(prefs, p, now))
  {
    var prefs' := Snapshotted(prefs, p, now);
    SaveAddsOneVersion(prefs, p, now);
    NextIsFresh(prefs, p.body.scope, p.version);
    forall s, n: nat, m: nat | HasVersion(prefs', s, n) && 1 <= m <= n
      ensures Taken(prefs', s, m)
    {
      if HasVersion(prefs, s, n) {
        assert Taken(prefs, s, m);
        var t :| Lower(t) == Lower(s) && HasVersion(prefs, t, m);
        assert HasVersion(prefs', t, m);
      } else if m < n {
        assert Taken(prefs, p.body.scope, m);
        var t :| Lower(t) == Lower(p.body.scope) && HasVersion(prefs, t, m);
        assert HasVersion(prefs', t, m);
      }
    }
  }

  lemma SaveKeepsInv(prefs: Prefs, p: Profile, now: int)
    requires Inv(prefs) && IsNext(prefs, p.body.scope, p.version)
    ensures Inv(Snapshotted(prefs, p, now)) && KeepsSnapshots(prefs, Snapshotted(prefs, p, now))
  {
    var prefs' := Snapshotted(prefs, p, now);
    var key, pointer := VersionKey(p.body.scope, p.version), ACTIVE + p.body.scope;
    SaveKeepsNumbering(prefs, p, now);
    SaveAddsOneVersion(prefs, p, now);
    NextIsFresh(prefs, p.body.scope, p.version);
    OtherKindsUnlisted(pointer, p.body.scope, "");
    assert key != pointer;
    assert Aside(pointer);
    if pointer in prefs { SnapshotsAreNotAside(prefs, pointer); }
    forall k | k in prefs'
      ensures Entry(prefs', k)
    {
      if k == key {
        assert prefs'[k] == Snapshot(p);
      } else if k == pointer {
        assert HasVersion(prefs', p.body.scope, p.version);
      } else {
        assert Entry(prefs, k);
      }
    }
  }

  // ---- every step ------------------------------------------------------------

  lemma ApprovalKeepsInv(gate: bool, prefs: Prefs, scope: string, force: bool, now: int, prefs': Prefs,
                         r: ApproveResult)
    requires Inv(prefs) && Approves(prefs, gate, scope, force, now, prefs', r)
    ensures Inv(prefs') && KeepsSnapshots(prefs, prefs')
  {
    if r.Approved? {
      SaveKeepsInv(prefs, r.profile, now);
      DropKeepsInv(Snapshotted(prefs, r.profile, now), scope);
    }
  }

  lemma StepKeepsInv(gate: bool, prefs: Prefs, op: Op, now: int, prefs': Prefs)
    requires Inv(prefs) && Step(gate, prefs, op, now, prefs')
    ensures Inv(prefs') && KeepsSnapshots(prefs, prefs')
  {
    match op {
      case Propose(d) =>
        assert Aside(DRAFT + d.scope);
        PutKeepsInv(prefs, DRAFT + d.scope, Pending(d));
      case Approval(scope, force) =>
        var r :| Approves(prefs, gate, scope, force, now, prefs', r);
        ApprovalKeepsInv(gate, prefs, scope, force, now, prefs', r);
      case Rejection(scope) =>
        DropKeepsInv(prefs, scope);
      case Reversion(scope, version) =>
        if HasVersion(prefs, scope, version) {
          var pointer := ACTIVE + scope;
          assert Aside(pointer);
          OtherKindsUnlisted(pointer, scope, "");
          assert HasVersion(prefs[pointer := Active(scope, version, now)], scope, version);
          PutKeepsInv(prefs, pointer, Active(scope, version, now));
        }
      case BankWrite(scope, items) =>
        assert Aside(BANK + scope);
        PutKeepsInv(prefs, BANK + scope, Bank(items));
    }
  }

  // ---- every history ---------------------------------------------------------

  /** Whatever is proposed, approved, rejected or reverted, in any order: the table stays sound. */
  lemma {:induction false} EveryTableIsSound(gate: bool, tables: seq<Prefs>, ops: seq<Op>, times: seq<int>, i: nat)
    requires History(gate, tables, ops, times) && i < |tables|
    ensures Inv(tables[i])
  {
    if i > 0 {
      EveryTableIsSound(gate, tables, ops, times, i - 1);
      StepKeepsInv(gate, tables[i - 1], ops[i - 1], times[i - 1], tables[i]);
    }
  }

  /** A stored version is never rewritten and never deleted. */
  lemma {:induction false} SnapshotsNeverChange(gate: bool, tables: seq<Prefs>, ops: seq<Op>, times: seq<int>, i: nat,
                                                j: nat, key: string)
    requires History(gate, tables, ops, times) && i <= j < |tables|
    requires key in tables[i] && tables[i][key].Snapshot?
    ensures key in tables[j] && tables[j][key] == tables[i][key]
    decreases j
  {
    if i < j {
      SnapshotsNeverChange(gate, tables, ops, times, i, j - 1, key);
      EveryTableIsSound(gate, tables, ops, times, j - 1);
      StepKeepsInv(gate, tables[j - 1], ops[j - 1], times[j - 1], tables[j]);
    }
  }

  lemma VersionKeyStart(s: string, n: nat)
    ensures |VersionKey(s, n)| > 8 && VersionKey(s, n)[0] == 'p' && VersionKey(s, n)[8] == 'v'
  {
    assert VersionKey(s, n)[0] == VERSION[0] && VersionKey(s, n)[8] == VERSION[8];
  }

  /** The active pointer of a scope always names a version of that very scope that exists. */
  lemma ActiveNamesAVersion(gate: bool, tables: seq<Prefs>, ops: seq<Op>, times: seq<int>, i: nat, scope: string)
    requires History(gate, tables, ops, times) && i < |tables|
    requires ACTIVE + scope in tables[i]
    ensures var v := tables[i][ACTIVE + scope]; v.Active? && v.scope == scope && HasVersion(tables[i], scope, v.version)
  {
    var key := ACTIVE + scope;
    EveryTableIsSound(gate, tables, ops, times, i);
    assert Entry(tables[i], key);
    assert key[0] == 'p' && key[8] == 'a';
    match tables[i][key] {
      case Snapshot(p) => VersionKeyStart(p.body.scope, p.version); assert false;
      case Active(s, _, _) => assert key[|ACTIVE|..] == scope && (ACTIVE + s)[|ACTIVE|..] == s;
      case Pending(d) => assert false;
      case Bank(_) => assert false;
    }
  }

  /** Where a version comes from: an approval of a draft with that body, which the gate let through
      (no evaluation, an empty one, or one that is no regression), which was forced, or the gate was off. */
  lemma VersionsComeFromApprovals(gate: bool, tables: seq<Prefs>, ops: seq<Op>, times: seq<int>, i: nat, key: string)
    requires History(gate, tables, ops, times) && i < |ops|
    requires key !in tables[i] && key in tables[i + 1] && tables[i + 1][key].Snapshot?
    ensures ops[i].Approval?
    ensures GetDraft(tables[i], ops[i].scope).Some?
    ensures var d := GetDraft(tables[i], ops[i].scope).value;
            && tables[i + 1][key].profile.body == d.body
            && tables[i + 1][key].profile.createdAt == times[i]
            && (gate && !ops[i].force ==> d.eval == None || d.eval.value.total <= 0 || d.eval.value.delta >= 0)
  {
    assert Step(gate, tables[i], ops[i], times[i], tables[i + 1]);
  }

  /** Step `k` approved the draft this profile was made of: the gate let it through, was forced or was off. */
  ghost predicate Promoted(gate: bool, tables: seq<Prefs>, ops: seq<Op>, times: seq<int>, k: nat, p: Profile)
    requires k < |tables| && k < |ops| && k < |times|
  {
    && ops[k].Approval?
    && times[k] == p.createdAt
    && var d := GetDraft(tables[k], ops[k].scope);
      && d.Some? && d.value.body == p.body
      && (gate && !ops[k].force ==>
          d.value.eval == None || d.value.eval.value.total <= 0 || d.value.eval.value.delta >= 0)
  }

  /** Whatever happened in between, every stored version goes back to an approval, at the time it carries,
      of a draft with its body. */
  lemma {:induction false} EveryVersionWasApproved(gate: bool, tables: seq<Prefs>, ops: seq<Op>, times: seq<int>,
                                                   i: nat, key: string)
    requires History(gate, tables, ops, times) && i < |tables|
    requires key in tables[i] && tables[i][key].Snapshot?
    ensures exists k: nat :: k < i && Promoted(gate, tables, ops, times, k, tables[i][key].profile)
  {
    if i == 0 {
      assert false;
    } else if key in tables[i - 1] && tables[i - 1][key].Snapshot? {
      EveryVersionWasApproved(gate, tables, ops, times, i - 1, key);
      SnapshotsNeverChange(gate, tables, ops, times, i - 1, i, key);
    } else {
      NewVersionIsNewKey(gate, tables, ops, times, i - 1, key);
      VersionsComeFromApprovals(gate, tables, ops, times, i - 1, key);
      assert Promoted(gate, tables, ops, times, i - 1, tables[i][key].profile);
    }
  }

  lemma VersionKeysAreNotAside(s: string, n: nat)
    ensures !Aside(VersionKey(s, n))
  {
    if Aside(VersionKey(s, n)) { AsideIsUnlisted(VersionKey(s, n)); }
  }

  lemma OtherEntriesAreAside(prefs: Prefs, key: string)
    requires key in prefs && Entry(prefs, key) && !prefs[key].Snapshot?
    ensures Aside(key)
  {
    match prefs[key] {
      case Active(s, _, _) => assert key == ACTIVE + s;
      case Pending(d) => assert key == DRAFT + d.scope;
      case Bank(_) => var s :| key == BANK + s;
    }
  }

  /** No other entry turns into a version. */
  lemma NewVersionIsNewKey(gate: bool, tables: seq<Prefs>, ops: seq<Op>, times: seq<int>, i: nat, key: string)
    requires History(gate, tables, ops, times) && i < |ops|
    requires key in tables[i + 1] && tables[i + 1][key].Snapshot?
    requires key in tables[i] ==> !tables[i][key].Snapshot?
    ensures key !in tables[i]
  {
    EveryTableIsSound(gate, tables, ops, times, i);
    EveryTableIsSound(gate, tables, ops, times, i + 1);
    assert Entry(tables[i + 1], key);
    VersionKeysAreNotAside(tables[i + 1][key].profile.body.scope, tables[i + 1][key].profile.version);
    if key in tables[i] { OtherEntriesAreAside(tables[i], key); }
  }

  /** An approval either does nothing at all or adds exactly one version and uses the draft up; it does the latter
      if and only if a draft is pending that is no measured regression, or is forced, or meets no gate. */
  lemma ApprovalPromotesIff(gate: bool, tables: seq<Prefs>, ops: seq<Op>, times: seq<int>, i: nat)
    requires History(gate, tables, ops, times) && i < |ops| && ops[i].Approval?
    ensures var d := GetDraft(tables[i], ops[i].scope);
            tables[i + 1] != tables[i] <==>
              && d.Some?
              && (!gate || ops[i].force || d.value.eval == None || d.value.eval.value.total <= 0
                  || d.value.eval.value.delta >= 0)
    ensures tables[i + 1] != tables[i] ==>
              && GetDraft(tables[i + 1], ops[i].scope) == None
              && exists s, v: nat :: !HasVersion(tables[i], s, v) && PlusVersion(tables[i], tables[i + 1], s, v)
  {
    var prefs, scope, now := tables[i], ops[i].scope, times[i];
    assert Step(gate, prefs, ops[i], now, tables[i + 1]);
    var r :| Approves(prefs, gate, scope, ops[i].force, now, tables[i + 1], r);
    if r.Approved? {
      var p := r.profile;
      EveryTableIsSound(gate, tables, ops, times, i);
      SaveAddsOneVersion(prefs, p, now);
      NextIsFresh(prefs, p.body.scope, p.version);
      OtherKindsUnlisted(DRAFT + scope, scope, "");
      assert !HasVersion(prefs, p.body.scope, p.version) && PlusVersion(prefs, tables[i + 1], p.body.scope, p.version);
      assert DRAFT + scope in prefs && DRAFT + scope !in tables[i + 1];
    }
  }

  /** The versions of `prefs'` are those of `prefs` and version `v` of `scope`. */
  ghost predicate PlusVersion(prefs: Prefs, prefs': Prefs, scope: string, v: nat) {
    forall s, n: nat :: HasVersion(prefs', s, n) <==> HasVersion(prefs, s, n) || (s == scope && n == v)
  }

  // ---- numbering -------------------------------------------------------------

  /** No other scope equal to it up to ASCII case has a version. */
  ghost predicate Alone(prefs: Prefs, scope: string) {
    forall t, n: nat :: HasVersion(prefs, t, n) && Lower(t) == Lower(scope) ==> t == scope
  }

  /** A scope's versions are exactly 1 up to the last number given, if and only if no case variant of it has one. */
  lemma VersionsAreOneToN(gate: bool, tables: seq<Prefs>, ops: seq<Op>, times: seq<int>, i: nat, scope: string,
                          next: nat)
    requires History(gate, tables, ops, times) && i < |tables|
    requires IsNext(tables[i], scope, next)
    ensures (forall m: nat :: HasVersion(tables[i], scope, m) <==> 1 <= m < next) <==> Alone(tables[i], scope)
  {
    var prefs := tables[i];
    EveryTableIsSound(gate, tables, ops, times, i);
    NextIsFresh(prefs, scope, next);
    if Alone(prefs, scope) {
      forall m: nat
        ensures HasVersion(prefs, scope, m) <==> 1 <= m < next
      {
        if 1 <= m < next {
          assert Taken(prefs, scope, m);
        } else if m == 0 && HasVersion(prefs, scope, 0) {
          NoVersionZero(prefs, scope);
        }
      }
    } else {
      var t, n: nat :| HasVersion(prefs, t, n) && Lower(t) == Lower(scope) && t != scope;
      if n == 0 { NoVersionZero(prefs, t); }
      assert 1 <= n < next && !HasVersion(prefs, scope, n);
    }
  }

  lemma NoVersionZero(prefs: Prefs, scope: string)
    requires Inv(prefs)
    ensures !HasVersion(prefs, scope, 0)
  {
    if HasVersion(prefs, scope, 0) {
      var key := VersionKey(scope, 0);
      assert Entry(prefs, key);
      var p := prefs[key].profile;
      VersionKeyInjective(scope, 0, p.body.scope, p.version);
      assert false;
    }
  }

  /** Proposing an unevaluated draft and approving it stores it under the next number. */
  lemma ProposeThenApprove(gate: bool, prefs: Prefs, scope: string, v: nat) returns (drafted: Prefs, saved: Prefs)
    requires Inv(prefs) && IsNext(prefs, scope, v)
    ensures Step(gate, prefs, Propose(Draft(scope, Body(scope, ""), None)), 0, drafted)
    ensures Step(gate, drafted, Approval(scope, false), 0, saved)
    ensures Inv(saved)
    ensures forall s, n: nat :: HasVersion(saved, s, n) <==> HasVersion(prefs, s, n) || (s == scope && n == v)
  {
    var d, p := Draft(scope, Body(scope, ""), None), Profile(Body(scope, ""), v, 0);
    drafted := prefs[DRAFT + scope := Pending(d)];
    saved := Snapshotted(drafted, p, 0) - {DRAFT + scope};
    StepKeepsInv(gate, prefs, Propose(d), 0, drafted);
    OtherKindsUnlisted(DRAFT + scope, scope, scope);
    assert forall s, n: nat :: HasVersion(drafted, s, n) <==> HasVersion(prefs, s, n);
    NumberingCarriesOver(prefs, drafted, scope, v);
    assert Approves(drafted, gate, scope, false, 0, saved, Approved(p));
    StepKeepsInv(gate, drafted, Approval(scope, false), 0, saved);
    SaveAddsOneVersion(drafted, p, 0);
  }

  /** The next number depends on the stored versions only. */
  lemma NumberingCarriesOver(prefs: Prefs, prefs': Prefs, scope: string, v: nat)
    requires Inv(prefs) && Inv(prefs') && SameVersions(prefs, prefs')
    requires IsNext(prefs, scope, v)
    ensures IsNext(prefs', scope, v)
  {
    forall key, n | Listed(prefs', scope, key, n)
      ensures n < v
    {
      ListedIsTaken(prefs', scope, key, n);
      var t :| Lower(t) == Lower(scope) && HasVersion(prefs', t, n);
      TakenIsListed(prefs, scope, t, n);
    }
    if v > 1 {
      var key :| Listed(prefs, scope, key, v - 1);
      ListedIsTaken(prefs, scope, key, v - 1);
      var t :| Lower(t) == Lower(scope) && HasVersion(prefs, t, v - 1);
      TakenIsListed(prefs', scope, t, v - 1);
    }
  }

  lemma NumberAfter(prefs: Prefs, other: string, scope: string)
    requires Inv(prefs) && Lower(other) == Lower(scope)
    requires forall s, n: nat :: HasVersion(prefs, s, n) <==> s == other && n == 1
    ensures IsNext(prefs, scope, 2)
  {
    forall key, n | Listed(prefs, scope, key, n)
      ensures n < 2
    {
      ListedIsTaken(prefs, scope, key, n);
    }
    TakenIsListed(prefs, scope, other, 1);
  }

  /** Two scopes that differ in case only, such as "cwd:A" and "cwd:a": the second one's first version is number 2. */
  lemma CaseVariantsShareNumbers(gate: bool, a: string, b: string)
    requires a != b && Lower(a) == Lower(b)
    ensures exists tables, ops, times ::
              && History(gate, tables, ops, times) && |ops| == 4
              && HasVersion(tables[4], a, 1) && HasVersion(tables[4], b, 2) && !HasVersion(tables[4], b, 1)
  {
    var t0: Prefs := map[];
    assert Inv(t0) && IsNext(t0, a, 1);
    var t1, t2 := ProposeThenApprove(gate, t0, a, 1);
    NumberAfter(t2, a, b);
    var t3, t4 := ProposeThenApprove(gate, t2, b, 2);
    var tables, ops, times := FourSteps(gate, t1, t2, t3, t4, Propose(Draft(a, Body(a, ""), None)), Approval(a, false),
                                        Propose(Draft(b, Body(b, ""), None)), Approval(b, false));
  }

  lemma FourSteps(gate: bool, t1: Prefs, t2: Prefs, t3: Prefs, t4: Prefs, a: Op, b: Op, c: Op, d: Op)
    returns (tables: seq<Prefs>, ops: seq<Op>, times: seq<int>)
    requires Step(gate, map[], a, 0, t1) && Step(gate, t1, b, 0, t2) && Step(gate, t2, c, 0, t3)
             && Step(gate, t3, d, 0, t4)
    ensures History(gate, tables, ops, times) && |ops| == 4 && tables[4] == t4
  {
    tables, ops, times := [map[], t1, t2, t3, t4], [a, b, c, d], [0, 0, 0, 0];
  }
}
