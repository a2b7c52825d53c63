/** Mining steering examples from recorded sessions: `src/learning/miner.ts`. */
module Miner {
  import opened Text
  import opened ExampleBank

  const MAX_GLOBAL_ITEMS := 5000

  // ---- the examples of one session -------------------------------------------

  datatype ChatMessage = ChatMessage(fromUser: bool, text: string)

  predicate IsNoise(text: string) {
    var t := Trim(text);
    |t| < 3 || "<" <= t
  }

  /** The example in a user message that directly follows an assistant message. */
  function Pair(hash: Hasher, when: int, prev: ChatMessage, cur: ChatMessage): Option<Item> {
    if !cur.fromUser || prev.fromUser || IsNoise(cur.text) then None
    else
      var situation, instruction := Truncate(prev.text, 300), Truncate(cur.text, 300);
      Some(Item(situation, instruction, Past, false, hash(situation, instruction), 1, when))
  }

  /** The first `max` examples of a session, in message order. */
  function Mined(hash: Hasher, when: int, msgs: seq<ChatMessage>, k: nat, max: int): seq<Item>
    requires k <= |msgs|
    decreases k
  {
    if k < 2 then []
    else
      var before := Mined(hash, when, msgs, k - 1, max);
      var found := Pair(hash, when, msgs[k - 2], msgs[k - 1]);
      if |before| < max && found.Some? then before + [found.value] else before
  }

  lemma {:induction false} MinedIsFull(hash: Hasher, when: int, msgs: seq<ChatMessage>, k: nat, max: int)
    requires k <= |msgs| && |Mined(hash, when, msgs, k, max)| >= max
    ensures Mined(hash, when, msgs, |msgs|, max) == Mined(hash, when, msgs, k, max)
    decreases |msgs| - k
  {
    if k < |msgs| {
      MinedIsFull(hash, when, msgs, k + 1, max);
    }
  }

  lemma {:induction false} MinedCountOnce(hash: Hasher, when: int, msgs: seq<ChatMessage>, k: nat, max: int)
    requires k <= |msgs|
    ensures forall it :: it in Mined(hash, when, msgs, k, max) ==> it.count == 1
  {
    if k >= 2 {
      MinedCountOnce(hash, when, msgs, k - 1, max);
    }
  }

  // ---- a list with its index -------------------------------------------------

  /** A list of examples and the place of each hash in it. */
  datatype Scope = Scope(list: seq<Item>, index: map<string, nat>)

  const EMPTY := Scope([], map[])

  ghost predicate Indexed(s: Scope) {
    && (forall h :: h in s.index ==> s.index[h] < |s.list| && s.list[s.index[h]].hash == h)
    && (forall i :: 0 <= i < |s.list| ==> s.list[i].hash in s.index && s.index[s.list[i].hash] == i)
  }

  /** The list holds exactly what was merged. */
  ghost predicate Shows(s: Scope, b: ByHash) {
    Indexed(s) && Valid(b) && Values(b) == s.list
  }

  lemma SameHashes(b: ByHash, list: seq<Item>, h: string)
    requires Valid(b) && Values(b) == list
    ensures forall i :: 0 <= i < |list| ==> b.order[i] == list[i].hash
    ensures h in b.at <==> exists i :: 0 <= i < |list| && list[i].hash == h
  {
    forall i | 0 <= i < |list|
      ensures b.order[i] == list[i].hash
    {
      assert b.order[i] in b.order;
      assert list[i] == b.at[b.order[i]];
    }
    if h in b.at {
      assert h in b.order;
    }
  }

  lemma SeenAgain(s: Scope, it: Item, b: ByHash)
    requires Shows(s, b) && it.hash in s.index
    ensures var i := s.index[it.hash]; Shows(Scope(s.list[i := Bump(s.list[i], it)], s.index), Add(b, it))
  {
    var i := s.index[it.hash];
    SameHashes(b, s.list, it.hash);
    var j := AddValues(b, it);
    assert s.list[j].hash == it.hash;
    assert i == j;
  }

  lemma SeenFirst(s: Scope, it: Item, b: ByHash)
    requires Shows(s, b) && it.hash !in s.index
    ensures Shows(Scope(s.list + [it], s.index[it.hash := |s.list|]), Add(b, it))
  {
    SameHashes(b, s.list, it.hash);
    var j := AddValues(b, it);
  }

  /** A repeat bumps the count by one, a new example is appended. */
  method Upsert(s: Scope, it: Item, ghost b: ByHash) returns (s': Scope)
    requires Shows(s, b) && it.count == 1
    ensures Shows(s', Add(b, it))
  {
    if it.hash in s.index {
      var i := s.index[it.hash];
      var old' := s.list[i];
      var bumped := old'.(count := old'.count + 1,
                          lastSeen := if it.lastSeen > old'.lastSeen then it.lastSeen else old'.lastSeen);
      SeenAgain(s, it, b);
      assert bumped == Bump(old', it);
      s' := Scope(s.list[i := bumped], s.index);
    } else {
      s' := Scope(s.list + [it], s.index[it.hash := |s.list|]);
      SeenFirst(s, it, b);
    }
  }

  // ---- the capped list -------------------------------------------------------

  /** Merging stops for good once the list is full; from then on repeats are not counted either. */
  function AddWhileRoom(b: ByHash, items: seq<Item>, cap: int): ByHash {
    if items == [] then b
    else
      var before := AddWhileRoom(b, items[..|items| - 1], cap);
      if |before.order| < cap then Add(before, items[|items| - 1]) else before
  }

  lemma {:induction false} OrderGrows(b: ByHash, items: seq<Item>, k: nat)
    requires k <= |items|
    ensures |AddAll(b, items[..k]).order| <= |AddAll(b, items).order|
  {
    if k < |items| {
      var n := |items| - 1;
      OrderGrows(b, items[..n], k);
      assert items[..n][..k] == items[..k];
    } else {
      assert items[..k] == items;
    }
  }

  /** The capped list is the plain merge of a first part of the examples: all of them, or as many as fill it. */
  lemma {:induction false} RoomForAPrefix(b: ByHash, items: seq<Item>, cap: int) returns (k: nat)
    requires |b.order| <= cap
    ensures k <= |items| && AddWhileRoom(b, items, cap) == AddAll(b, items[..k])
    ensures |AddWhileRoom(b, items, cap).order| <= cap
    ensures k < |items| ==> |AddWhileRoom(b, items, cap).order| == cap
  {
    if items == [] {
      k := 0;
    } else {
      var n := |items| - 1;
      k := RoomForAPrefix(b, items[..n], cap);
      assert items[..n][..k] == items[..k];
      if |AddWhileRoom(b, items[..n], cap).order| < cap {
        k := |items|;
        assert items[..k] == items;
      }
    }
  }

  /** While nothing is turned away, the capped merge is the plain one. */
  lemma RoomForAll(b: ByHash, items: seq<Item>, cap: int)
    requires |b.order| <= cap
    requires items != [] ==> |AddAll(b, items[..|items| - 1]).order| < cap
    ensures AddWhileRoom(b, items, cap) == AddAll(b, items)
  {
    if items != [] {
      var init := items[..|items| - 1];
      var k := RoomForAPrefix(b, init, cap);
      OrderGrows(b, init, k);
      if k < |init| { assert false; }
      assert init[..k] == init;
    }
  }

  lemma TotalOfPart(items: seq<Item>, k: nat)
    requires k <= |items| && forall it :: it in items ==> it.count == 1
    ensures Total(items[..k]) == k
    decreases k
  {
    if k > 0 {
      TotalOfPart(items, k - 1);
      assert items[..k][..k - 1] == items[..k - 1];
      assert items[k - 1] in items;
    }
  }

  lemma PartTotal(items: seq<Item>, k: nat)
    requires k <= |items| && forall it :: it in items ==> it.count == 1
    ensures Valid(AddAll(NONE, items[..k])) && Total(Values(AddAll(NONE, items[..k]))) == k
  {
    MergeTotal(NONE, items[..k]);
    TotalOfPart(items, k);
    assert Values(NONE) == [];
  }

  /** The global list counts every mined example if and only if it still had room when the last one came. */
  lemma GlobalIsCompleteIff(items: seq<Item>, cap: int)
    requires cap >= 0 && forall it :: it in items ==> it.count == 1
    ensures Valid(AddWhileRoom(NONE, items, cap))
    ensures AddWhileRoom(NONE, items, cap) == AddAll(NONE, items) <==>
            items == [] || |AddAll(NONE, items[..|items| - 1]).order| < cap
    ensures Total(Values(AddWhileRoom(NONE, items, cap))) == |items| <==>
            items == [] || |AddAll(NONE, items[..|items| - 1]).order| < cap
  {
    assert items[..|items|] == items;
    PartTotal(items, |items|);
    if items == [] || |AddAll(NONE, items[..|items| - 1]).order| < cap {
      RoomForAll(NONE, items, cap);
    } else {
      var j := FullBeforeTheEnd(items, cap);
      PartTotal(items, j);
    }
  }

  /** `n` examples, all different. */
  function Various(n: nat): seq<Item> {
    seq(n, i requires 0 <= i < n => Item("", "", Past, false, Decimal(i), 1, 0))
  }

  function Numerals(n: nat): seq<string> {
    seq(n, i requires 0 <= i < n => Decimal(i))
  }

  lemma NextNumeral(n: nat)
    ensures Decimal(n) !in Numerals(n) && Numerals(n + 1) == Numerals(n) + [Decimal(n)]
  {
    DecimalRoundTrip(n);
    forall i | 0 <= i < n
      ensures Decimal(i) != Decimal(n)
    {
      DecimalRoundTrip(i);
    }
  }

  lemma {:induction false} VariousFill(n: nat)
    ensures Valid(AddAll(NONE, Various(n))) && AddAll(NONE, Various(n)).order == Numerals(n)
  {
    AddAllKeepsValid(NONE, Various(n));
    if n > 0 {
      VariousFill(n - 1);
      NextNumeral(n - 1);
      assert Various(n)[..n - 1] == Various(n - 1);
    }
  }

  /** A full list and then a repeat: the repeat is not counted, although the list holds the example. */
  lemma RepeatsAreNotCountedWhenFull(cap: nat)
    requires cap >= 1
    ensures var items := Various(cap) + [Various(cap)[0]];
            && AddWhileRoom(NONE, items, cap) == AddAll(NONE, Various(cap))
            && AddWhileRoom(NONE, items, cap) != AddAll(NONE, items)
  {
    var items := Various(cap) + [Various(cap)[0]];
    VariousFill(cap);
    assert items[..cap] == Various(cap);
    GlobalIsCompleteIff(items, cap);
    var init := Various(cap);
    VariousFill(cap - 1);
    assert init[..cap - 1] == Various(cap - 1);
    RoomForAll(NONE, init, cap);
  }

  lemma FullBeforeTheEnd(items: seq<Item>, cap: int) returns (j: nat)
    requires cap >= 0 && items != [] && |AddAll(NONE, items[..|items| - 1]).order| >= cap
    ensures j < |items| && AddWhileRoom(NONE, items, cap) == AddAll(NONE, items[..j])
  {
    var init := items[..|items| - 1];
    j := RoomForAPrefix(NONE, init, cap);
    if j == |init| { assert init[..j] == init; }
    assert init[..j] == items[..j];
  }

  // ---- mining ----------------------------------------------------------------

  /** Mine one session: exactly its first `max` pairs, merged in order into the list of its directory and, while
      there is room, into the global one. */
  method MineSession(hash: Hasher, when: int, msgs: seq<ChatMessage>, max: int, everything: Scope, own: Scope,
                     ghost g: ByHash, ghost b: ByHash)
    returns (everything': Scope, own': Scope)
    requires Shows(everything, g) && Shows(own, b)
    ensures Shows(everything', AddWhileRoom(g, Mined(hash, when, msgs, |msgs|, max), MAX_GLOBAL_ITEMS))
    ensures Shows(own', AddAll(b, Mined(hash, when, msgs, |msgs|, max)))
  {
    everything', own' := everything, own;
    var minted := 0;
    ghost var mined: seq<Item> := [];
    var i := 1;
    while i < |msgs|
      invariant 1 <= i && (|msgs| == 0 || i <= |msgs|)
      invariant mined == Mined(hash, when, msgs, if |msgs| == 0 then 0 else i, max) && minted == |mined|
      invariant Shows(everything', AddWhileRoom(g, mined, MAX_GLOBAL_ITEMS)) && Shows(own', AddAll(b, mined))
    {
      if minted >= max {
        MinedIsFull(hash, when, msgs, i, max);
        return;
      }
      var prev, cur := msgs[i - 1], msgs[i];
      i := i + 1;
      if !cur.fromUser || prev.fromUser || IsNoise(cur.text) {
        continue;
      }
      var situation, instruction := Truncate(prev.text, 300), Truncate(cur.text, 300);
      var it := Item(situation, instruction, Past, false, hash(situation, instruction), 1, when);
      assert (mined + [it])[..|mined|] == mined;
      if |everything'.list| < MAX_GLOBAL_ITEMS {
        everything' := Upsert(everything', it, AddWhileRoom(g, mined, MAX_GLOBAL_ITEMS));
      }
      own' := Upsert(own', it, AddAll(b, mined));
      mined := mined + [it];
      minted := minted + 1;
    }
  }

  /** A discovered session: its directory, its last activity, and its messages unless they cannot be read. */
  datatype Found = Found(cwd: string, lastActivity: int, messages: Option<seq<ChatMessage>>)

  function PairsOf(hash: Hasher, s: Found, max: int): seq<Item> {
    if s.messages == None then []
    else Mined(hash, s.lastActivity, s.messages.value, |s.messages.value|, max)
  }

  /** Everything mined from the sessions, of all directories or of one. */
  function AllPairs(hash: Hasher, sessions: seq<Found>, max: int): seq<Item> {
    if sessions == [] then []
    else
      var n := |sessions| - 1;
      AllPairs(hash, sessions[..n], max) + PairsOf(hash, sessions[n], max)
  }

  function PairsIn(hash: Hasher, sessions: seq<Found>, max: int, cwd: string): seq<Item> {
    if sessions == [] then []
    else
      var n := |sessions| - 1;
      var before := PairsIn(hash, sessions[..n], max, cwd);
      if sessions[n].cwd == cwd then before + PairsOf(hash, sessions[n], max) else before
  }

  function Readable(sessions: seq<Found>): nat {
    if sessions == [] then 0
    else Readable(sessions[..|sessions| - 1]) + if sessions[|sessions| - 1].messages == None then 0 else 1
  }

  ghost predicate HasReadable(sessions: seq<Found>, cwd: string) {
    exists i :: 0 <= i < |sessions| && sessions[i].cwd == cwd && sessions[i].messages.Some?
  }

  lemma {:induction false} AddWhileRoomAppend(b: ByHash, xs: seq<Item>, ys: seq<Item>, cap: int)
    ensures AddWhileRoom(b, xs + ys, cap) == AddWhileRoom(AddWhileRoom(b, xs, cap), ys, cap)
  {
    if ys == [] {
      assert xs + ys == xs;
    } else {
      AddWhileRoomAppend(b, xs, ys[..|ys| - 1], cap);
      assert (xs + ys)[..|xs + ys| - 1] == xs + ys[..|ys| - 1];
    }
  }

  lemma HasReadableSnoc(sessions: seq<Found>, i: nat, cwd: string)
    requires i < |sessions|
    ensures HasReadable(sessions[..i + 1], cwd) <==>
            HasReadable(sessions[..i], cwd) || (sessions[i].cwd == cwd && sessions[i].messages.Some?)
  {
    var now, before := sessions[..i + 1], sessions[..i];
    assert now[i] == sessions[i] && forall j :: 0 <= j < i ==> now[j] == before[j];
  }

  /** What the global list amounts to, and that of one directory. */
  function GlobalOf(hash: Hasher, sessions: seq<Found>, max: int): ByHash {
    AddWhileRoom(NONE, AllPairs(hash, sessions, max), MAX_GLOBAL_ITEMS)
  }

  function OwnOf(hash: Hasher, sessions: seq<Found>, max: int, cwd: string): ByHash {
    AddAll(NONE, PairsIn(hash, sessions, max, cwd))
  }

  lemma GlobalSnoc(hash: Hasher, sessions: seq<Found>, i: nat, max: int)
    requires i < |sessions|
    ensures GlobalOf(hash, sessions[..i + 1], max)
            == AddWhileRoom(GlobalOf(hash, sessions[..i], max), PairsOf(hash, sessions[i], max), MAX_GLOBAL_ITEMS)
  {
    assert sessions[..i + 1][..i] == sessions[..i];
    AddWhileRoomAppend(NONE, AllPairs(hash, sessions[..i], max), PairsOf(hash, sessions[i], max), MAX_GLOBAL_ITEMS);
  }

  ghost predicate ByCwd(hash: Hasher, sessions: seq<Found>, max: int, byCwd: map<string, Scope>, cwd: string) {
    && (cwd in byCwd <==> HasReadable(sessions, cwd))
    && (cwd in byCwd ==> Shows(byCwd[cwd], OwnOf(hash, sessions, max, cwd)))
    && (cwd !in byCwd ==> PairsIn(hash, sessions, max, cwd) == [])
  }

  ghost predicate AllByCwd(hash: Hasher, sessions: seq<Found>, max: int, byCwd: map<string, Scope>) {
    forall cwd :: ByCwd(hash, sessions, max, byCwd, cwd)
  }

  lemma Unread(hash: Hasher, sessions: seq<Found>, i: nat, max: int, byCwd: map<string, Scope>)
    requires i < |sessions| && sessions[i].messages == None
    requires AllByCwd(hash, sessions[..i], max, byCwd)
    ensures AllByCwd(hash, sessions[..i + 1], max, byCwd)
  {
    var before, now := sessions[..i], sessions[..i + 1];
    assert now[..i] == before;
    forall cwd
      ensures ByCwd(hash, now, max, byCwd, cwd)
    {
      assert ByCwd(hash, before, max, byCwd, cwd);
      HasReadableSnoc(sessions, i, cwd);
      assert PairsIn(hash, now, max, cwd) == PairsIn(hash, before, max, cwd);
    }
  }

  lemma Read(hash: Hasher, sessions: seq<Found>, i: nat, max: int, byCwd: map<string, Scope>, own: Scope)
    requires i < |sessions| && sessions[i].messages.Some?
    requires AllByCwd(hash, sessions[..i], max, byCwd)
    requires Shows(own, AddAll(OwnOf(hash, sessions[..i], max, sessions[i].cwd), PairsOf(hash, sessions[i], max)))
    ensures AllByCwd(hash, sessions[..i + 1], max, byCwd[sessions[i].cwd := own])
  {
    var before, now, s := sessions[..i], sessions[..i + 1], sessions[i];
    var after := byCwd[s.cwd := own];
    assert now[..i] == before && now[i] == s;
    forall cwd
      ensures ByCwd(hash, now, max, after, cwd)
    {
      assert ByCwd(hash, before, max, byCwd, cwd);
      HasReadableSnoc(sessions, i, cwd);
      AddAllAppend(NONE, PairsIn(hash, before, max, cwd), PairsOf(hash, s, max));
      assert PairsIn(hash, now, max, cwd)
             == if s.cwd == cwd then PairsIn(hash, before, max, cwd) + PairsOf(hash, s, max)
                else PairsIn(hash, before, max, cwd);
    }
  }

  /** The pass over one readable session. */
  method MineNext(hash: Hasher, sessions: seq<Found>, i: nat, max: int, all: Scope, byCwd: map<string, Scope>)
    returns (all': Scope, byCwd': map<string, Scope>)
    requires i < |sessions| && sessions[i].messages.Some?
    requires Shows(all, GlobalOf(hash, sessions[..i], max)) && AllByCwd(hash, sessions[..i], max, byCwd)
    ensures Shows(all', GlobalOf(hash, sessions[..i + 1], max))
    ensures AllByCwd(hash, sessions[..i + 1], max, byCwd')
  {
    var s := sessions[i];
    var own := if s.cwd in byCwd then byCwd[s.cwd] else EMPTY;
    ghost var g, b := GlobalOf(hash, sessions[..i], max), OwnOf(hash, sessions[..i], max, s.cwd);
    assert ByCwd(hash, sessions[..i], max, byCwd, s.cwd);
    all', own := MineSession(hash, s.lastActivity, s.messages.value, max, all, own, g, b);
    GlobalSnoc(hash, sessions, i, max);
    Read(hash, sessions, i, max, byCwd, own);
    byCwd' := byCwd[s.cwd := own];
  }

  /** One list for each directory with a readable session, merged from exactly that directory's pairs; and a global
      one, merged from all pairs while it had room. */
  method MineExamples(hash: Hasher, discovered: Option<seq<Found>>, max: int)
    returns (everything: seq<Item>, byCwd: map<string, Scope>, scanned: nat)
    ensures var sessions := if discovered == None then [] else discovered.value;
            && AllByCwd(hash, sessions, max, byCwd)
            && Valid(GlobalOf(hash, sessions, max)) && everything == Values(GlobalOf(hash, sessions, max))
            && scanned == Readable(sessions)
  {
    byCwd, scanned := map[], 0;
    if discovered == None {
      return [], map[], 0;
    }
    var sessions := discovered.value;
    var all := EMPTY;
    var i := 0;
    while i < |sessions|
      invariant 0 <= i <= |sessions|
      invariant AllByCwd(hash, sessions[..i], max, byCwd)
      invariant Shows(all, GlobalOf(hash, sessions[..i], max))
      invariant scanned == Readable(sessions[..i])
    {
      assert sessions[..i + 1][..i] == sessions[..i];
      if sessions[i].messages == None {
        GlobalSnoc(hash, sessions, i, max);
        Unread(hash, sessions, i, max, byCwd);
      } else {
        scanned := scanned + 1;
        all, byCwd := MineNext(hash, sessions, i, max, all, byCwd);
      }
      i := i + 1;
    }
    assert sessions[..|sessions|] == sessions;
    everything := all.list;
  }
}
