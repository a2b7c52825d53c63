/** Merging examples by hash: `dedupe` (`src/learning/service.ts`), `mergeInto` (`feedbackSignals.ts`),
    `appendExamples` (`profileStore.ts`). */
module ExampleBank {
  import opened Text

  datatype Source = Past | LiveSignal

  /** One example of how the owner steered the agent. */
  datatype Item = Item(situation: string, instruction: string, source: Source, negative: bool, hash: string, count: int,
                       lastSeen: int)

  /** The hash of a (situation, instruction) pair. */
  type Hasher = (string, string) -> string

  // ---- an insertion-ordered map by hash --------------------------------------

  datatype ByHash = ByHash(order: seq<string>, at: map<string, Item>)

  const NONE := ByHash([], map[])

  ghost predicate Valid(b: ByHash) {
    && (forall i, j :: 0 <= i < j < |b.order| ==> b.order[i] != b.order[j])
    && (forall h :: h in b.order <==> h in b.at)
    && (forall h :: h in b.at ==> b.at[h].hash == h)
  }

  function Values(b: ByHash): (items: seq<Item>)
    requires forall h :: h in b.order ==> h in b.at
    ensures |items| == |b.order|
  {
    seq(|b.order|, i requires 0 <= i < |b.order| => b.at[b.order[i]])
  }

  /** Seen again: counts add up, the latest sighting stays. */
  function Bump(old': Item, it: Item): Item {
    old'.(count := old'.count + it.count,
          lastSeen := if it.lastSeen > old'.lastSeen then it.lastSeen else old'.lastSeen)
  }

  function AddAt(at: map<string, Item>, it: Item): map<string, Item> {
    at[it.hash := if it.hash in at then Bump(at[it.hash], it) else it]
  }

  /** Merge one item: bump the entry with its hash, or append it. */
  function Add(b: ByHash, it: Item): ByHash {
    ByHash(if it.hash in b.at then b.order else b.order + [it.hash], AddAt(b.at, it))
  }

  function AddAll(b: ByHash, items: seq<Item>): ByHash {
    if items == [] then b else Add(AddAll(b, items[..|items| - 1]), items[|items| - 1])
  }

  lemma AddKeepsValid(b: ByHash, it: Item)
    requires Valid(b)
    ensures Valid(Add(b, it))
  {
    var c := Add(b, it);
    forall h
      ensures h in c.order <==> h in c.at
    {
      assert h in b.order + [it.hash] <==> h in b.order || h == it.hash;
    }
  }

  lemma {:induction false} AddAllKeepsValid(b: ByHash, items: seq<Item>)
    requires Valid(b)
    ensures Valid(AddAll(b, items))
  {
    if items != [] {
      AddAllKeepsValid(b, items[..|items| - 1]);
      AddKeepsValid(AddAll(b, items[..|items| - 1]), items[|items| - 1]);
    }
  }

  lemma {:induction false} AddAllAppend(b: ByHash, xs: seq<Item>, ys: seq<Item>)
    ensures AddAll(b, xs + ys) == AddAll(AddAll(b, xs), ys)
  {
    if ys == [] {
      assert xs + ys == xs;
    } else {
      AddAllAppend(b, xs, ys[..|ys| - 1]);
      assert (xs + ys)[..|xs + ys| - 1] == xs + ys[..|ys| - 1];
    }
  }

  // ---- conservation, hash by hash --------------------------------------------

  /** The total count the items give a hash. */
  function CountOf(items: seq<Item>, h: string): int {
    if items == [] then 0
    else CountOf(items[..|items| - 1], h) + if items[|items| - 1].hash == h then items[|items| - 1].count else 0
  }

  /** The latest sighting of a hash among the items. */
  function LatestOf(items: seq<Item>, h: string): Option<int> {
    if items == [] then None
    else
      var rest, last := LatestOf(items[..|items| - 1], h), items[|items| - 1];
      if last.hash != h then rest
      else if rest.Some? && rest.value >= last.lastSeen then rest
      else Some(last.lastSeen)
  }

  /** Every merged entry has the summed count and the latest sighting of its hash, and an entry
      exists for exactly the hashes seen. */
  lemma {:induction false} MergeConserves(items: seq<Item>, h: string)
    ensures var at := AddAll(NONE, items).at;
            && (h in at <==> LatestOf(items, h).Some?)
            && (h in at ==> at[h].count == CountOf(items, h) && Some(at[h].lastSeen) == LatestOf(items, h))
            && (h !in at ==> CountOf(items, h) == 0)
  {
    if items != [] {
      MergeConserves(items[..|items| - 1], h);
    }
  }

  function Total(items: seq<Item>): int {
    if items == [] then 0 else Total(items[..|items| - 1]) + items[|items| - 1].count
  }

  lemma {:induction false} TotalUpdate(items: seq<Item>, i: nat, it: Item)
    requires i < |items|
    ensures Total(items[i := it]) == Total(items) - items[i].count + it.count
  {
    var n := |items| - 1;
    if i < n {
      TotalUpdate(items[..n], i, it);
      assert items[i := it][..n] == items[..n][i := it];
    } else {
      assert items[i := it][..n] == items[..n];
    }
  }

  /** Merging one item either bumps one listed entry or appends the item. */
  lemma AddValues(b: ByHash, it: Item) returns (i: nat)
    requires Valid(b)
    ensures Valid(Add(b, it))
    ensures it.hash in b.at ==>
            i < |b.order| && b.order[i] == it.hash && Values(Add(b, it)) == Values(b)[i := Bump(Values(b)[i], it)]
    ensures it.hash !in b.at ==> Values(Add(b, it)) == Values(b) + [it]
  {
    AddKeepsValid(b, it);
    if it.hash in b.at {
      assert it.hash in b.order;
      i :| 0 <= i < |b.order| && b.order[i] == it.hash;
      forall j | 0 <= j < |b.order|
        ensures Values(Add(b, it))[j] == Values(b)[i := Bump(Values(b)[i], it)][j]
      {
      }
    } else {
      i := 0;
      forall j | 0 <= j < |b.order|
        ensures Values(Add(b, it))[j] == Values(b)[j]
      {
        assert b.order[j] in b.order;
      }
    }
  }

  lemma AddTotal(b: ByHash, it: Item)
    requires Valid(b)
    ensures Valid(Add(b, it)) && Total(Values(Add(b, it))) == Total(Values(b)) + it.count
  {
    var i := AddValues(b, it);
    var v := Values(b);
    if it.hash in b.at {
      TotalUpdate(v, i, Bump(v[i], it));
    } else {
      assert (v + [it])[..|v|] == v;
    }
  }

  /** Merging loses and invents nothing: the total count is that of everything merged. */
  lemma {:induction false} MergeTotal(b: ByHash, items: seq<Item>)
    requires Valid(b)
    ensures Valid(AddAll(b, items)) && Total(Values(AddAll(b, items))) == Total(Values(b)) + Total(items)
  {
    if items != [] {
      MergeTotal(b, items[..|items| - 1]);
      AddTotal(AddAll(b, items[..|items| - 1]), items[|items| - 1]);
    }
  }

  // ---- batching does not matter ----------------------------------------------

  /** Bumping a present entry commutes with merging items of other hashes. */
  lemma {:induction false} AddCommutes(d: ByHash, x: Item, rest: seq<Item>)
    requires x.hash in d.at && forall y :: y in rest ==> y.hash != x.hash
    ensures AddAll(Add(d, x), rest) == Add(AddAll(d, rest), x) && x.hash in AddAll(d, rest).at
  {
    if rest != [] {
      var n := |rest| - 1;
      AddCommutes(d, x, rest[..n]);
      AddSwap(AddAll(d, rest[..n]), x, rest[n]);
    }
  }

  /** Bumping a present entry commutes with adding one of another hash. */
  lemma AddSwap(e: ByHash, x: Item, y: Item)
    requires x.hash in e.at && x.hash != y.hash
    ensures Add(Add(e, x), y) == Add(Add(e, y), x)
  {
    assert Add(Add(e, x), y).at == Add(Add(e, y), x).at;
  }

  /** Merging an already merged pair is merging both. */
  lemma BumpTwice(c: ByHash, v: Item, x: Item)
    requires v.hash == x.hash
    ensures Add(c, Bump(v, x)) == Add(Add(c, v), x)
  {
    assert Add(c, Bump(v, x)).at == Add(Add(c, v), x).at;
  }

  /** Bumping one entry of a list before merging the list is merging the list and then the item. */
  lemma BumpThenMerge(b: ByHash, v: seq<Item>, i: nat, x: Item)
    requires i < |v| && v[i].hash == x.hash
    requires forall j :: i < j < |v| ==> v[j].hash != x.hash
    ensures AddAll(b, v[i := Bump(v[i], x)]) == Add(AddAll(b, v), x)
  {
    var left, right := v[..i], v[i + 1..];
    assert v == left + [v[i]] + right;
    assert v[i := Bump(v[i], x)] == left + [Bump(v[i], x)] + right;
    var c := AddAll(b, left);
    AddAllAppend(b, left + [v[i]], right);
    AddAllAppend(b, left + [Bump(v[i], x)], right);
    assert (left + [v[i]])[..|left|] == left && (left + [Bump(v[i], x)])[..|left|] == left;
    BumpTwice(c, v[i], x);
    AddCommutes(Add(c, v[i]), x, right);
  }

  lemma AddThenMerge(b: ByHash, m: ByHash, x: Item)
    requires Valid(m)
    ensures Valid(Add(m, x)) && AddAll(b, Values(Add(m, x))) == Add(AddAll(b, Values(m)), x)
  {
    var i := AddValues(m, x);
    var v := Values(m);
    if x.hash in m.at {
      forall j | i < j < |v|
        ensures v[j].hash != x.hash
      {
        assert m.order[j] in m.order;
      }
      BumpThenMerge(b, v, i, x);
    } else {
      assert (v + [x])[..|v|] == v;
    }
  }

  /** Deduplicating a batch before merging it gives the same bank as merging the batch. */
  lemma {:induction false} BatchingIsIrrelevant(b: ByHash, items: seq<Item>)
    ensures Valid(AddAll(NONE, items)) && AddAll(b, Values(AddAll(NONE, items))) == AddAll(b, items)
  {
    if items == [] {
      assert Values(NONE) == [];
    } else {
      var n := |items| - 1;
      BatchingIsIrrelevant(b, items[..n]);
      AddThenMerge(b, AddAll(NONE, items[..n]), items[n]);
    }
  }

  // ---- the loops of the sources ----------------------------------------------

  /** Merge a batch into an accumulator (`mergeInto`; `dedupe` starts from an empty one). */
  method MergeInto(acc: ByHash, items: seq<Item>) returns (b: ByHash)
    requires Valid(acc)
    ensures b == AddAll(acc, items) && Valid(b)
  {
    b := acc;
    var i := 0;
    while i < |items|
      invariant 0 <= i <= |items|
      invariant b == AddAll(acc, items[..i])
    {
      assert items[..i + 1][..i] == items[..i];
      var it := items[i];
      if it.hash in b.at {
        var old' := b.at[it.hash];
        b := b.(at := b.at[it.hash :=
          old'.(count := old'.count + it.count,
                lastSeen := if it.lastSeen > old'.lastSeen then it.lastSeen else old'.lastSeen)]);
      } else {
        b := ByHash(b.order + [it.hash], b.at[it.hash := it]);
      }
      i := i + 1;
    }
    assert items[..|items|] == items;
    AddAllKeepsValid(acc, items);
  }

  method Dedupe(items: seq<Item>) returns (out: seq<Item>)
    ensures Valid(AddAll(NONE, items)) && out == Values(AddAll(NONE, items))
  {
    var b := MergeInto(NONE, items);
    out := Values(b);
  }

  // ---- the capped bank -------------------------------------------------------

  /** Most seen first, then most recent. */
  predicate Before(a: Item, b: Item) {
    a.count > b.count || (a.count == b.count && a.lastSeen >= b.lastSeen)
  }

  /** Seen as often or more, and if as often, not earlier. */
  predicate NoLess(a: Item, b: Item) {
    a.count >= b.count && (a.count == b.count ==> a.lastSeen >= b.lastSeen)
  }

  ghost predicate Ranked(items: seq<Item>) {
    forall i, j :: 0 <= i < j < |items| ==> NoLess(items[i], items[j])
  }

  function Insert(it: Item, items: seq<Item>): seq<Item> {
    if items == [] || !Before(items[0], it) then [it] + items else [items[0]] + Insert(it, items[1..])
  }

  /** A stable sort by rank. */
  function Sort(items: seq<Item>): seq<Item> {
    if items == [] then [] else Insert(items[|items| - 1], Sort(items[..|items| - 1]))
  }

  lemma HeadStaysFirst(it: Item, items: seq<Item>)
    requires Ranked(items) && items != [] && Before(items[0], it)
    requires multiset(Insert(it, items[1..])) == multiset(items[1..]) + multiset{it}
    ensures forall j :: 0 <= j < |Insert(it, items[1..])| ==> Before(items[0], Insert(it, items[1..])[j])
  {
    var rest := Insert(it, items[1..]);
    forall j | 0 <= j < |rest|
      ensures Before(items[0], rest[j])
    {
      assert rest[j] in multiset(rest);
      if rest[j] != it {
        assert rest[j] in multiset(items[1..]);
        var k :| 0 <= k < |items[1..]| && items[1..][k] == rest[j];
        assert items[k + 1] == rest[j];
      }
    }
  }

  lemma FrontRanks(head: Item, rest: seq<Item>)
    requires Ranked(rest) && forall j :: 0 <= j < |rest| ==> Before(head, rest[j])
    ensures Ranked([head] + rest) && multiset([head] + rest) == multiset(rest) + multiset{head}
  {
  }

  lemma {:induction false} InsertRanks(it: Item, items: seq<Item>)
    requires Ranked(items)
    ensures Ranked(Insert(it, items)) && multiset(Insert(it, items)) == multiset(items) + multiset{it}
  {
    if items != [] && Before(items[0], it) {
      InsertRanks(it, items[1..]);
      HeadStaysFirst(it, items);
      FrontRanks(items[0], Insert(it, items[1..]));
      assert items == [items[0]] + items[1..];
    } else {
      assert forall j :: 0 <= j < |items| ==> Before(items[0], items[j]);
      FrontRanks(it, items);
    }
  }

  lemma {:induction false} SortRanks(items: seq<Item>)
    ensures Ranked(Sort(items)) && multiset(Sort(items)) == multiset(items) && |Sort(items)| == |items|
  {
    if items != [] {
      var n := |items| - 1;
      SortRanks(items[..n]);
      InsertRanks(items[n], Sort(items[..n]));
      assert items == items[..n] + [items[n]];
      assert |multiset(Sort(items))| == |multiset(items)|;
    }
  }

  /** `new Map(items.map(it => [it.hash, it]))`: a repeated hash keeps its place and takes the later item. */
  function Index(items: seq<Item>): ByHash {
    if items == [] then NONE
    else
      var b, it := Index(items[..|items| - 1]), items[|items| - 1];
      ByHash(if it.hash in b.at then b.order else b.order + [it.hash], b.at[it.hash := it])
  }

  lemma {:induction false} IndexIsValid(items: seq<Item>)
    ensures Valid(Index(items))
  {
    if items != [] {
      var b, it := Index(items[..|items| - 1]), items[|items| - 1];
      IndexIsValid(items[..|items| - 1]);
      var c := Index(items);
      forall h
        ensures h in c.order <==> h in c.at
      {
        assert h in b.order + [it.hash] <==> h in b.order || h == it.hash;
      }
    }
  }

  /** The bank after appending: merge, rank, keep the first `cap`. */
  function Appended(bank: seq<Item>, items: seq<Item>, cap: nat): seq<Item> {
    if items == [] then bank
    else
      IndexIsValid(bank);
      AddAllKeepsValid(Index(bank), items);
      var ranked := Sort(Values(AddAll(Index(bank), items)));
      if |ranked| <= cap then ranked else ranked[..cap]
  }

  method AppendExamples(bank: seq<Item>, items: seq<Item>, cap: nat) returns (next: seq<Item>)
    ensures next == Appended(bank, items, cap)
  {
    if |items| == 0 {
      return bank;
    }
    IndexIsValid(bank);
    var byHash := MergeInto(Index(bank), items);
    var merged := Sort(Values(byHash));
    next := if |merged| <= cap then merged else merged[..cap];
  }

  /** `next` is the top of `all`: ranked, and what is left out does not outrank it. */
  ghost predicate TopOf(next: seq<Item>, evicted: seq<Item>, all: seq<Item>) {
    && multiset(next) + multiset(evicted) == multiset(all)
    && Ranked(next)
    && forall i, j :: 0 <= i < |next| && 0 <= j < |evicted| ==> NoLess(next[i], evicted[j])
  }

  lemma RankedCut(ranked: seq<Item>, all: seq<Item>, k: nat)
    requires Ranked(ranked) && multiset(ranked) == multiset(all) && k <= |ranked|
    ensures TopOf(ranked[..k], ranked[k..], all)
  {
    assert ranked == ranked[..k] + ranked[k..];
  }

  /** The items of one rank. */
  function Peers(items: seq<Item>, count: int, seen: int): seq<Item> {
    if items == [] then []
    else
      var last := items[|items| - 1];
      Peers(items[..|items| - 1], count, seen) + if last.count == count && last.lastSeen == seen then [last] else []
  }

  lemma {:induction false} PeersOfSum(a: seq<Item>, b: seq<Item>, count: int, seen: int)
    ensures Peers(a + b, count, seen) == Peers(a, count, seen) + Peers(b, count, seen)
  {
    if b == [] {
      assert a + b == a;
    } else {
      var m := |b| - 1;
      assert (a + b)[..|a + b| - 1] == a + b[..m];
      PeersOfSum(a, b[..m], count, seen);
    }
  }

  lemma {:induction false} NoPeers(items: seq<Item>, count: int, seen: int)
    requires forall i :: 0 <= i < |items| ==> !(items[i].count == count && items[i].lastSeen == seen)
    ensures Peers(items, count, seen) == []
  {
    if items != [] { NoPeers(items[..|items| - 1], count, seen); }
  }

  lemma {:induction false} InsertIsStable(it: Item, items: seq<Item>, count: int, seen: int)
    requires Ranked(items)
    ensures Peers(Insert(it, items), count, seen) == Peers(items + [it], count, seen)
  {
    PeersOfSum(items, [it], count, seen);
    if items == [] || !Before(items[0], it) {
      PeersOfSum([it], items, count, seen);
      if it.count == count && it.lastSeen == seen { NoPeers(items, count, seen); }
    } else {
      var head, tail := items[..1], items[1..];
      assert items == head + tail && [items[0]] == head;
      InsertIsStable(it, tail, count, seen);
      PeersOfSum(head, tail, count, seen);
      PeersOfSum(tail, [it], count, seen);
      PeersOfSum(head, Insert(it, tail), count, seen);
    }
  }

  /** Of the same rank, what came first stays first. */
  lemma {:induction false} SortIsStable(items: seq<Item>, count: int, seen: int)
    ensures Peers(Sort(items), count, seen) == Peers(items, count, seen)
  {
    if items != [] {
      var init, last := items[..|items| - 1], items[|items| - 1];
      SortIsStable(init, count, seen);
      SortRanks(init);
      InsertIsStable(last, Sort(init), count, seen);
      PeersOfSum(Sort(init), [last], count, seen);
      PeersOfSum(init, [last], count, seen);
      assert init + [last] == items;
    }
  }

  lemma PeersOfCut(ranked: seq<Item>, k: nat, count: int, seen: int)
    requires k <= |ranked|
    ensures Peers(ranked[..k], count, seen) <= Peers(ranked, count, seen)
  {
    assert ranked == ranked[..k] + ranked[k..];
    PeersOfSum(ranked[..k], ranked[k..], count, seen);
  }

  /** Of the same rank, the bank keeps those that were merged first, in that order. */
  lemma FirstPeersAreKept(bank: seq<Item>, items: seq<Item>, cap: nat, count: int, seen: int)
    requires items != []
    ensures Valid(AddAll(Index(bank), items))
    ensures Peers(Appended(bank, items, cap), count, seen) <= Peers(Values(AddAll(Index(bank), items)), count, seen)
  {
    IndexIsValid(bank);
    AddAllKeepsValid(Index(bank), items);
    var all := Values(AddAll(Index(bank), items));
    SortIsStable(all, count, seen);
    PeersOfCut(Sort(all), if |Sort(all)| <= cap then |Sort(all)| else cap, count, seen);
    assert Sort(all)[..|Sort(all)|] == Sort(all);
  }

  /** The next bank is the top `cap` of what was merged: ranked, nothing kept that was not merged, and
      nothing evicted that outranks what is kept. Without anything new the bank stays as it is. */
  lemma BankIsTopCap(bank: seq<Item>, items: seq<Item>, cap: nat)
    ensures items == [] ==> Appended(bank, items, cap) == bank
    ensures items != [] ==>
              var b := AddAll(Index(bank), items);
              && Valid(b)
              && |Appended(bank, items, cap)| == (if |b.order| <= cap then |b.order| else cap)
              && exists evicted :: TopOf(Appended(bank, items, cap), evicted, Values(b))
  {
    if items != [] { MergedIsTopCap(bank, items, cap); }
  }

  lemma MergedIsTopCap(bank: seq<Item>, items: seq<Item>, cap: nat)
    requires items != []
    ensures var b := AddAll(Index(bank), items);
            && Valid(b)
            && |Appended(bank, items, cap)| == (if |b.order| <= cap then |b.order| else cap)
            && exists evicted :: TopOf(Appended(bank, items, cap), evicted, Values(b))
  {
    IndexIsValid(bank);
    AddAllKeepsValid(Index(bank), items);
    var all := Values(AddAll(Index(bank), items));
    TopOfSorted(all, Appended(bank, items, cap), cap);
  }

  lemma TopOfSorted(all: seq<Item>, next: seq<Item>, cap: nat)
    requires next == if |Sort(all)| <= cap then Sort(all) else Sort(all)[..cap]
    ensures |next| == (if |all| <= cap then |all| else cap)
    ensures exists evicted :: TopOf(next, evicted, all)
  {
    SortRanks(all);
    var ranked := Sort(all);
    var k := if |all| <= cap then |all| else cap;
    RankedCut(ranked, all, k);
    assert next == ranked[..k];
  }

  // ---- without eviction, batches do not matter -------------------------------

  lemma {:induction false} IndexAt(items: seq<Item>, b: ByHash)
    requires Valid(b) && multiset(items) == multiset(Values(b))
    ensures Index(items).at == b.at
  {
    IndexIsValid(items);
    IndexHolds(items);
    var c := Index(items);
    forall h | h in b.at
      ensures h in c.at && c.at[h] == b.at[h]
    {
      assert h in b.order;
      var i :| 0 <= i < |b.order| && b.order[i] == h;
      assert Values(b)[i] in multiset(items);
      assert b.at[h] in items;
      HashDecides(items, b, c.at[h], b.at[h]);
    }
    forall h | h in c.at
      ensures h in b.at
    {
      assert c.at[h] in multiset(Values(b));
    }
    assert c.at == b.at;
  }

  /** Every indexed entry is one of the items, and every item's hash is indexed. */
  lemma {:induction false} IndexHolds(items: seq<Item>)
    ensures forall h :: h in Index(items).at ==> Index(items).at[h] in items && Index(items).at[h].hash == h
    ensures forall it :: it in items ==> it.hash in Index(items).at
  {
    if items != [] {
      IndexHolds(items[..|items| - 1]);
    }
  }

  lemma HashDecides(items: seq<Item>, b: ByHash, x: Item, y: Item)
    requires Valid(b) && multiset(items) == multiset(Values(b))
    requires x in items && y in items && x.hash == y.hash
    ensures x == y
  {
    assert x in multiset(Values(b)) && y in multiset(Values(b));
    var i :| 0 <= i < |b.order| && Values(b)[i] == x;
    var j :| 0 <= j < |b.order| && Values(b)[j] == y;
    assert b.order[i] in b.order && b.order[j] in b.order;
  }

  lemma {:induction false} AddAllAt(a: ByHash, b: ByHash, items: seq<Item>)
    requires a.at == b.at
    ensures AddAll(a, items).at == AddAll(b, items).at
  {
    if items != [] {
      AddAllAt(a, b, items[..|items| - 1]);
    }
  }

  lemma {:induction false} DistinctCount(order: seq<string>, keys: set<string>)
    requires forall i, j :: 0 <= i < j < |order| ==> order[i] != order[j]
    requires forall h :: h in order <==> h in keys
    ensures |order| == |keys|
  {
    if order == [] {
      assert keys == {};
    } else {
      var n := |order| - 1;
      assert order == order[..n] + [order[n]];
      DistinctCount(order[..n], keys - {order[n]});
    }
  }

  lemma {:induction false} AddAllGrows(b: ByHash, items: seq<Item>)
    ensures |AddAll(b, items).order| >= |b.order|
  {
    if items != [] {
      AddAllGrows(b, items[..|items| - 1]);
    }
  }

  /** As long as the bank has room for everything, two batches appended one after the other leave the
      same examples as both at once, and the total count is conserved. */
  lemma BatchesAgreeWithoutEviction(bank: seq<Item>, xs: seq<Item>, ys: seq<Item>, cap: nat)
    requires xs != [] && ys != []
    requires |AddAll(Index(bank), xs + ys).order| <= cap
    ensures var twice := Appended(Appended(bank, xs, cap), ys, cap);
            && Index(twice).at == Index(Appended(bank, xs + ys, cap)).at
            && Valid(Index(bank)) && Total(twice) == Total(Values(Index(bank))) + Total(xs) + Total(ys)
  {
    var start := Index(bank);
    IndexIsValid(bank);
    AddAllAppend(start, xs, ys);
    AddAllGrows(AddAll(start, xs), ys);
    AppendWithRoom(bank, xs, cap);
    AppendWithRoom(bank, xs + ys, cap);
    var mid := Appended(bank, xs, cap);
    IndexIsValid(mid);
    AddAllAt(Index(mid), AddAll(start, xs), ys);
    AddAllKeepsValid(Index(mid), ys);
    AddAllKeepsValid(start, xs + ys);
    var b, c := AddAll(Index(mid), ys), AddAll(start, xs + ys);
    DistinctCount(b.order, b.at.Keys);
    DistinctCount(c.order, c.at.Keys);
    AppendWithRoom(mid, ys, cap);
    TotalOfIndex(mid);
  }

  // ---- with eviction the batches matter ----------------------------------------

  const STEADY := Item("s", "one", Past, false, "a", 2, 1)
  const RARE := Item("s", "two", Past, false, "b", 1, 0)
  const OFTEN := RARE.(count := 2)

  /** A bank of one: all at once, the second example is seen three times and stays; in two batches it is evicted after
      the first, its count is lost, and the other one stays. */
  lemma BatchesDisagreeWithEviction()
    ensures Appended([], [STEADY, RARE] + [OFTEN], 1) == [RARE.(count := 3)]
    ensures Appended(Appended([], [STEADY, RARE], 1), [OFTEN], 1) == [STEADY]
  {
    var two := ByHash(["a", "b"], map["a" := STEADY, "b" := RARE]);
    var all := ByHash(["a", "b"], map["a" := STEADY, "b" := RARE.(count := 3)]);
    var again := ByHash(["a", "b"], map["a" := STEADY, "b" := OFTEN]);
    AddOne(NONE, STEADY);
    AddAllAppend(NONE, [STEADY], [RARE]);
    assert [STEADY] + [RARE] == [STEADY, RARE];
    AddOne(AddAll(NONE, [STEADY]), RARE);
    assert AddAll(NONE, [STEADY, RARE]) == two;
    AddAllAppend(NONE, [STEADY, RARE], [OFTEN]);
    AddOne(two, OFTEN);
    assert AddAll(NONE, [STEADY, RARE] + [OFTEN]) == all;
    TopOfTwo(all, [], [STEADY, RARE] + [OFTEN]);
    TopOfTwo(two, [], [STEADY, RARE]);
    IndexOfOne(STEADY);
    AddOne(Index([STEADY]), OFTEN);
    assert AddAll(Index([STEADY]), [OFTEN]) == again;
    TopOfTwo(again, [STEADY], [OFTEN]);
  }

  lemma AddOne(b: ByHash, it: Item)
    ensures AddAll(b, [it]) == Add(b, it)
  {
    assert [it][..0] == [];
  }

  lemma IndexOfOne(it: Item)
    ensures Index([it]) == ByHash([it.hash], map[it.hash := it])
  {
    assert [it][..0] == [];
    assert [] + [it.hash] == [it.hash];
  }

  /** The better of two entries is what a bank of one keeps. */
  lemma TopOfTwo(b: ByHash, bank: seq<Item>, items: seq<Item>)
    requires items != [] && b == AddAll(Index(bank), items)
    requires |b.order| == 2 && b.order[0] in b.at && b.order[1] in b.at
    ensures var x, y := b.at[b.order[0]], b.at[b.order[1]];
            Appended(bank, items, 1) == if Before(x, y) then [x] else [y]
  {
    var x, y := b.at[b.order[0]], b.at[b.order[1]];
    IndexIsValid(bank);
    AddAllKeepsValid(Index(bank), items);
    assert Values(b) == [x, y];
    SortTwo(x, y);
  }

  lemma SortTwo(x: Item, y: Item)
    ensures Sort([x, y]) == if Before(x, y) then [x, y] else [y, x]
  {
    assert [x, y][..1] == [x] && [x][..0] == [];
    assert Sort([x]) == Insert(x, []) == [x];
    assert [x][1..] == [] && Insert(y, []) == [y];
  }

  // ---- without it, they do not -------------------------------------------------

  /** With room to spare, appending keeps exactly what was merged. */
  lemma AppendWithRoom(bank: seq<Item>, items: seq<Item>, cap: nat)
    requires items != [] && |AddAll(Index(bank), items).order| <= cap
    ensures Valid(Index(bank)) && Valid(AddAll(Index(bank), items))
    ensures Index(Appended(bank, items, cap)).at == AddAll(Index(bank), items).at
    ensures Total(Appended(bank, items, cap)) == Total(Values(Index(bank))) + Total(items)
    ensures UniqueIn(Appended(bank, items, cap))
  {
    IndexIsValid(bank);
    AddAllKeepsValid(Index(bank), items);
    var b := AddAll(Index(bank), items);
    var next := Appended(bank, items, cap);
    SortRanks(Values(b));
    IndexAt(next, b);
    TotalOfPermutation(next, Values(b));
    MergeTotal(Index(bank), items);
    IndexIsValid(next);
    DistinctCount(b.order, b.at.Keys);
    DistinctCount(Index(next).order, Index(next).at.Keys);
  }

  /** Indexing the list drops nothing. */
  ghost predicate UniqueIn(items: seq<Item>) {
    |Index(items).order| == |items|
  }

  lemma {:induction false} IndexOfUnique(items: seq<Item>)
    requires UniqueIn(items)
    ensures Valid(Index(items)) && Values(Index(items)) == items
  {
    IndexIsValid(items);
    if items != [] {
      var n := |items| - 1;
      IndexIsShort(items[..n]);
      IndexIsValid(items[..n]);
      IndexOfUnique(items[..n]);
      NewEntryIsLast(Index(items[..n]), items[n]);
      assert items == items[..n] + [items[n]];
    }
  }

  lemma NewEntryIsLast(b: ByHash, it: Item)
    requires Valid(b) && it.hash !in b.at
    ensures var c := ByHash(b.order + [it.hash], b.at[it.hash := it]);
            (forall h :: h in c.order ==> h in c.at) && Values(c) == Values(b) + [it]
  {
    var c := ByHash(b.order + [it.hash], b.at[it.hash := it]);
    forall j | 0 <= j < |b.order|
      ensures c.order[j] == b.order[j] && c.order[j] in b.at && c.at[c.order[j]] == b.at[b.order[j]]
    {
      assert b.order[j] in b.order;
    }
  }

  lemma {:induction false} IndexIsShort(items: seq<Item>)
    ensures |Index(items).order| <= |items|
  {
    if items != [] {
      IndexIsShort(items[..|items| - 1]);
    }
  }

  lemma TotalOfIndex(items: seq<Item>)
    requires UniqueIn(items)
    ensures Valid(Index(items)) && Total(Values(Index(items))) == Total(items)
  {
    IndexOfUnique(items);
  }

  lemma SpliceCounts(b: seq<Item>, i: nat)
    requires i < |b|
    ensures multiset(b[..i] + b[i + 1..]) == multiset(b) - multiset{b[i]}
  {
    assert b == b[..i] + [b[i]] + b[i + 1..];
  }

  lemma {:induction false} TotalOfPermutation(a: seq<Item>, b: seq<Item>)
    requires multiset(a) == multiset(b)
    ensures Total(a) == Total(b)
  {
    if a == [] {
      assert |multiset(b)| == 0;
    } else {
      var n := |a| - 1;
      assert a[n] in multiset(b);
      var i :| 0 <= i < |b| && b[i] == a[n];
      assert a[n + 1..] == [] && a[..n] + [] == a[..n];
      SpliceCounts(a, n);
      SpliceCounts(b, i);
      TotalOfPermutation(a[..n], b[..i] + b[i + 1..]);
      TotalSplice(b, i);
    }
  }

  lemma {:induction false} TotalSplice(b: seq<Item>, i: nat)
    requires i < |b|
    ensures Total(b) == Total(b[..i] + b[i + 1..]) + b[i].count
  {
    var n := |b| - 1;
    if i == n {
      assert b[..i] + b[i + 1..] == b[..n];
    } else {
      TotalSplice(b[..n], i);
      var cut := b[..i] + b[i + 1..];
      assert cut[..|cut| - 1] == b[..n][..i] + b[..n][i + 1..];
    }
  }
}
