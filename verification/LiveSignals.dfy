/** Manual-override signals mined from the stored rows: `src/learning/liveSignals.ts`. */
module LiveSignals {
  import opened Text
  import opened Recorder
  import opened ExampleBank

  /** A run's decisions, keyed by the turn they followed, in turn order. */
  function DecisionsByTurn(turns: seq<TurnView>): seq<(nat, DecisionCols)> {
    if turns == [] then []
    else
      var t := turns[|turns| - 1];
      DecisionsByTurn(turns[..|turns| - 1])
        + seq(|t.decisions|, i requires 0 <= i < |t.decisions| => (t.cols.n, t.decisions[i]))
  }

  /** The last entry for a key wins, as when a `Map` is built from pairs. */
  function LastDecision(decisions: seq<(nat, DecisionCols)>, n: int): Option<DecisionCols> {
    if decisions == [] then None
    else if decisions[|decisions| - 1].0 == n then Some(decisions[|decisions| - 1].1)
    else LastDecision(decisions[..|decisions| - 1], n)
  }

  function LastTurn(turns: seq<TurnView>, n: int): Option<TurnCols> {
    if turns == [] then None
    else if turns[|turns| - 1].cols.n == n then Some(turns[|turns| - 1].cols)
    else LastTurn(turns[..|turns| - 1], n)
  }

  /** The override a turn shows: the brain proposed one instruction after the previous turn,
      and a different one was injected. */
  function Override(turns: seq<TurnView>, hash: Hasher, when: int, turn: TurnCols): Option<Item> {
    var k: int := turn.n;
    var decision := LastDecision(DecisionsByTurn(turns), k - 1);
    var previous := LastTurn(turns, k - 1);
    if k < 2 || decision == None || decision.value.action != ToContinue then None
    else if decision.value.prompt == None || Trim(decision.value.prompt.value) == "" then None
    else if Trim(turn.prompt) == "" then None
    else if SameInstruction(turn.prompt, decision.value.prompt.value) then None
    else if previous == None || Trim(previous.value.text) == "" then None
    else
      Some(Item(Truncate(previous.value.text, 300), Truncate(turn.prompt, 300), LiveSignal, false,
                hash(previous.value.text, turn.prompt), 1, when))
  }

  /** What an override says: the reply before the turn and what was injected instead, each cut to three hundred
      characters but hashed in full; from a live run, not marked as something to avoid, seen once, at the given time. */
  lemma OverrideSays(turns: seq<TurnView>, hash: Hasher, when: int, turn: TurnCols)
    requires Override(turns, hash, when, turn).Some?
    ensures var x, previous := Override(turns, hash, when, turn).value, LastTurn(turns, turn.n - 1);
            && previous.Some?
            && x.situation == Truncate(previous.value.text, 300) && x.instruction == Truncate(turn.prompt, 300)
            && x.hash == hash(previous.value.text, turn.prompt)
            && x.source == LiveSignal && !x.negative && x.count == 1 && x.lastSeen == when
  {
  }

  predicate HasHash(items: seq<Item>, hash: string) {
    exists i :: 0 <= i < |items| && items[i].hash == hash
  }

  function AddOnce(items: seq<Item>, found: Option<Item>): seq<Item> {
    if found == None || HasHash(items, found.value.hash) then items else items + [found.value]
  }

  /** Keep the first of each hash. */
  function Dedup(found: seq<Option<Item>>): seq<Item> {
    if found == [] then [] else AddOnce(Dedup(found[..|found| - 1]), found[|found| - 1])
  }

  function Overrides(turns: seq<TurnView>, hash: Hasher, when: int): seq<Option<Item>> {
    seq(|turns|, i requires 0 <= i < |turns| => Override(turns, hash, when, turns[i].cols))
  }

  /** The override examples of one run, deduplicated by hash. */
  function Corrections(turns: seq<TurnView>, hash: Hasher, when: int): seq<Item> {
    Dedup(Overrides(turns, hash, when))
  }

  method TurnsByNumber(turns: seq<TurnView>) returns (turnByN: map<int, TurnCols>)
    ensures forall n :: LastTurn(turns, n) == if n in turnByN then Some(turnByN[n]) else None
  {
    turnByN := map[];
    var i := 0;
    while i < |turns|
      invariant 0 <= i <= |turns|
      invariant forall n :: LastTurn(turns[..i], n) == if n in turnByN then Some(turnByN[n]) else None
    {
      assert turns[..i + 1][..i] == turns[..i];
      turnByN := turnByN[turns[i].cols.n := turns[i].cols];
      i := i + 1;
    }
    assert turns[..|turns|] == turns;
  }

  method DecisionsByNumber(decisions: seq<(nat, DecisionCols)>) returns (decByN: map<int, DecisionCols>)
    ensures forall n :: LastDecision(decisions, n) == if n in decByN then Some(decByN[n]) else None
  {
    decByN := map[];
    var i := 0;
    while i < |decisions|
      invariant 0 <= i <= |decisions|
      invariant forall n :: LastDecision(decisions[..i], n) == if n in decByN then Some(decByN[n]) else None
    {
      assert decisions[..i + 1][..i] == decisions[..i];
      decByN := decByN[decisions[i].0 := decisions[i].1];
      i := i + 1;
    }
    assert decisions[..|decisions|] == decisions;
  }

  /** When the overrides happened: at the end of the run, if that could be read, else with its last turn. */
  function HappenedAt(createdAt: seq<int>, endedAt: Option<int>): int
    requires createdAt != []
  {
    if endedAt.Some? then endedAt.value else createdAt[|createdAt| - 1]
  }

  /** All that is derived from a run carries one time: that of the run's end, or, if it has none, of its last turn. */
  lemma CorrectionsHappenedThen(turns: seq<TurnView>, createdAt: seq<int>, endedAt: Option<int>, hash: Hasher, x: Item)
    requires |createdAt| == |turns| && turns != []
    requires x in Corrections(turns, hash, HappenedAt(createdAt, endedAt))
    ensures endedAt.Some? ==> x.lastSeen == endedAt.value
    ensures endedAt == None ==> x.lastSeen == createdAt[|turns| - 1]
  {
    var when := HappenedAt(createdAt, endedAt);
    MinedAreExactlyOverrides(turns, hash, when, "");
    var i :| 0 <= i < |turns| && Overrides(turns, hash, when)[i] == Some(x);
    OverrideSays(turns, hash, when, turns[i].cols);
  }

  method DeriveCorrections(turns: seq<TurnView>, createdAt: seq<int>, endedAt: Option<int>, hash: Hasher)
    returns (items: seq<Item>)
    requires |createdAt| == |turns|
    ensures items == if turns == [] then [] else Corrections(turns, hash, HappenedAt(createdAt, endedAt))
  {
    if turns == [] {
      return [];
    }
    var turnByN := TurnsByNumber(turns);
    var decByN := DecisionsByNumber(DecisionsByTurn(turns));
    var when := createdAt[|turns| - 1];
    if endedAt.Some? {
      when := endedAt.value;
    }
    ghost var found := Overrides(turns, hash, when);
    items := [];
    var i := 0;
    while i < |turns|
      invariant 0 <= i <= |turns|
      invariant items == Dedup(found[..i])
    {
      assert found[..i + 1][..i] == found[..i];
      items := MinesTurn(turns, turnByN, decByN, hash, when, turns[i].cols, items);
      i := i + 1;
    }
    assert found[..|turns|] == found;
  }

  /** One pass of the loop: a turn that overrides the brain adds an item, unless its hash is there already. */
  method MinesTurn(ghost turns: seq<TurnView>, turnByN: map<int, TurnCols>, decByN: map<int, DecisionCols>,
                   hash: Hasher, when: int, turn: TurnCols, items: seq<Item>)
    returns (items': seq<Item>)
    requires forall n :: LastTurn(turns, n) == if n in turnByN then Some(turnByN[n]) else None
    requires forall n :: LastDecision(DecisionsByTurn(turns), n) == if n in decByN then Some(decByN[n]) else None
    ensures items' == AddOnce(items, Override(turns, hash, when, turn))
  {
    items' := items;
    var k: int := turn.n;
    if k < 2 || k - 1 !in decByN || decByN[k - 1].action != ToContinue { return; }
    var proposed := decByN[k - 1].prompt;
    if proposed == None || Trim(proposed.value) == "" || Trim(turn.prompt) == "" { return; }
    if SameInstruction(turn.prompt, proposed.value) { return; }
    if k - 1 !in turnByN || Trim(turnByN[k - 1].text) == "" { return; }
    var situation := turnByN[k - 1].text;
    var h := hash(situation, turn.prompt);
    if HasHash(items, h) { return; }
    items' := items + [Item(Truncate(situation, 300), Truncate(turn.prompt, 300), LiveSignal, false, h, 1, when)];
  }

  // ---- what the result means -------------------------------------------------

  ghost predicate UniqueHashes(items: seq<Item>) {
    forall i, j :: 0 <= i < j < |items| ==> items[i].hash != items[j].hash
  }

  lemma AddOnceKeepsHashes(items: seq<Item>, found: Option<Item>, h: string)
    ensures HasHash(AddOnce(items, found), h) <==> HasHash(items, h) || (found.Some? && found.value.hash == h)
  {
    var after := AddOnce(items, found);
    if HasHash(items, h) {
      var i :| 0 <= i < |items| && items[i].hash == h;
      assert after[i].hash == h;
    }
    if after != items {
      assert after[|items|] == found.value;
    }
  }

  lemma {:induction false} DedupHashes(found: seq<Option<Item>>, h: string)
    ensures HasHash(Dedup(found), h) <==> exists i :: 0 <= i < |found| && found[i].Some? && found[i].value.hash == h
  {
    if found != [] {
      var n := |found| - 1;
      DedupHashes(found[..n], h);
      AddOnceKeepsHashes(Dedup(found[..n]), found[n], h);
    }
  }

  lemma {:induction false} DedupItems(found: seq<Option<Item>>, x: Item)
    requires x in Dedup(found)
    ensures Some(x) in found
  {
    var n := |found| - 1;
    if x in Dedup(found[..n]) {
      DedupItems(found[..n], x);
    } else {
      assert found[n] == Some(x);
    }
  }

  lemma {:induction false} DedupUnique(found: seq<Option<Item>>)
    ensures UniqueHashes(Dedup(found))
  {
    if found != [] {
      DedupUnique(found[..|found| - 1]);
    }
  }

  /** What is mined is exactly the overrides: each item is one, each override's hash is present, none twice. */
  lemma MinedAreExactlyOverrides(turns: seq<TurnView>, hash: Hasher, when: int, h: string)
    ensures UniqueHashes(Corrections(turns, hash, when))
    ensures forall x :: x in Corrections(turns, hash, when) ==> Some(x) in Overrides(turns, hash, when)
    ensures HasHash(Corrections(turns, hash, when), h) <==>
            exists i :: 0 <= i < |turns| && Overrides(turns, hash, when)[i].Some?
              && Overrides(turns, hash, when)[i].value.hash == h
  {
    var found := Overrides(turns, hash, when);
    DedupUnique(found);
    DedupHashes(found, h);
    forall x | x in Corrections(turns, hash, when)
      ensures Some(x) in found
    {
      DedupItems(found, x);
    }
  }

  /** Nothing is mined exactly when no turn overrode the brain. */
  lemma EmptyIffNoOverride(turns: seq<TurnView>, hash: Hasher, when: int)
    ensures Corrections(turns, hash, when) == [] <==>
            forall i :: 0 <= i < |turns| ==> Override(turns, hash, when, turns[i].cols) == None
  {
    var found, items := Overrides(turns, hash, when), Corrections(turns, hash, when);
    if items != [] {
      DedupItems(found, items[0]);
      var i :| 0 <= i < |found| && found[i] == Some(items[0]);
      assert Override(turns, hash, when, turns[i].cols) != None;
    } else {
      forall i | 0 <= i < |turns|
        ensures Override(turns, hash, when, turns[i].cols) == None
      {
        if found[i].Some? {
          DedupHashes(found, found[i].value.hash);
        }
      }
    }
  }
}
