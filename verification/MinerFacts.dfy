/** Which examples are mined, in terms of the messages themselves. */
module MinerFacts {
  import opened Text
  import opened ExampleBank
  import opened Miner

  /** A user message worth learning from, right behind an assistant message: three characters or more between the white
      space, and no markup. */
  predicate Steers(prev: ChatMessage, cur: ChatMessage) {
    cur.fromUser && !prev.fromUser && |Trim(cur.text)| >= 3 && Trim(cur.text)[0] != '<'
  }

  /** The example says what went before and what the user said, each cut to three hundred characters; it is mined, not
      marked as something to avoid, and has been seen once, at the session's last activity. */
  lemma PairIff(hash: Hasher, when: int, prev: ChatMessage, cur: ChatMessage)
    ensures Pair(hash, when, prev, cur).Some? <==> Steers(prev, cur)
    ensures Steers(prev, cur) ==>
              var x := Pair(hash, when, prev, cur).value;
              && x.situation == Truncate(prev.text, 300) && x.instruction == Truncate(cur.text, 300)
              && x.hash == hash(x.situation, x.instruction)
              && x.source == Past && !x.negative && x.count == 1 && x.lastSeen == when
  {
  }

  /** The places of the messages worth learning from. */
  function Places(msgs: seq<ChatMessage>): seq<nat> {
    if |msgs| < 2 then []
    else
      var n := |msgs| - 1;
      Places(msgs[..n]) + if Steers(msgs[n - 1], msgs[n]) then [n] else []
  }

  predicate IsPlace(msgs: seq<ChatMessage>, k: int) {
    1 <= k < |msgs| && Steers(msgs[k - 1], msgs[k])
  }

  /** They are all such places, in order. */
  lemma {:induction false} PlacesAreAll(msgs: seq<ChatMessage>, k: nat)
    ensures k in Places(msgs) <==> IsPlace(msgs, k)
    ensures forall i, j :: 0 <= i < j < |Places(msgs)| ==> Places(msgs)[i] < Places(msgs)[j]
  {
    if |msgs| >= 2 {
      var n := |msgs| - 1;
      PlacesAreAll(msgs[..n], k);
      PlacesAreInside(msgs[..n]);
      assert k < n ==> (IsPlace(msgs[..n], k) <==> IsPlace(msgs, k));
    }
  }

  lemma {:induction false} PlacesAreInside(msgs: seq<ChatMessage>)
    ensures forall i :: 0 <= i < |Places(msgs)| ==> Places(msgs)[i] < |msgs|
  {
    if |msgs| >= 2 { PlacesAreInside(msgs[..|msgs| - 1]); }
  }

  /** What is mined is the examples at the first `max` of these places. */
  lemma {:induction false} MinedIsTheFirst(hash: Hasher, when: int, msgs: seq<ChatMessage>, k: nat, max: int, i: nat)
    requires k <= |msgs|
    ensures var mined, places := Mined(hash, when, msgs, k, max), Places(msgs[..k]);
            && |mined| == (if max <= 0 then 0 else if |places| < max then |places| else max)
            && (i < |mined| ==>
                  var n := places[i];
                  1 <= n < k && Some(mined[i]) == Pair(hash, when, msgs[n - 1], msgs[n]))
    decreases k
  {
    if k >= 2 {
      assert msgs[..k][..k - 1] == msgs[..k - 1];
      MinedIsTheFirst(hash, when, msgs, k - 1, max, i);
      PairIff(hash, when, msgs[k - 2], msgs[k - 1]);
    }
  }

  /** A pass over the sessions mines exactly what its readable sessions hold, ... */
  lemma {:induction false} AllPairsAre(hash: Hasher, sessions: seq<Found>, max: int, x: Item)
    ensures x in AllPairs(hash, sessions, max) <==> exists i :: InSession(hash, sessions, max, i, x)
  {
    if sessions != [] {
      var n := |sessions| - 1;
      AllPairsAre(hash, sessions[..n], max, x);
      InLastSession(hash, sessions, max, x);
      if i :| InSession(hash, sessions[..n], max, i, x) { InEarlierSession(hash, sessions, max, i, x); }
      if i :| InSession(hash, sessions, max, i, x) { InEarlierSession(hash, sessions, max, i, x); }
    }
  }

  lemma InLastSession(hash: Hasher, sessions: seq<Found>, max: int, x: Item)
    requires sessions != []
    ensures var n := |sessions| - 1;
            InSession(hash, sessions, max, n, x) <==> x in PairsOf(hash, sessions[n], max)
  {
  }

  lemma InEarlierSession(hash: Hasher, sessions: seq<Found>, max: int, i: int, x: Item)
    requires sessions != []
    ensures InSession(hash, sessions[..|sessions| - 1], max, i, x) <==>
            i < |sessions| - 1 && InSession(hash, sessions, max, i, x)
  {
  }

  ghost predicate InSession(hash: Hasher, sessions: seq<Found>, max: int, i: int, x: Item) {
    && 0 <= i < |sessions| && sessions[i].messages.Some?
    && var msgs := sessions[i].messages.value; x in Mined(hash, sessions[i].lastActivity, msgs, |msgs|, max)
  }

  /** ... a directory's list what those in that directory hold, ... */
  lemma {:induction false} PairsInAre(hash: Hasher, sessions: seq<Found>, max: int, cwd: string, x: Item)
    ensures x in PairsIn(hash, sessions, max, cwd) <==>
            exists i :: InSession(hash, sessions, max, i, x) && sessions[i].cwd == cwd
  {
    if sessions != [] {
      var n := |sessions| - 1;
      PairsInAre(hash, sessions[..n], max, cwd, x);
      InLastSession(hash, sessions, max, x);
      if i :| InSession(hash, sessions[..n], max, i, x) && sessions[..n][i].cwd == cwd {
        InEarlierSession(hash, sessions, max, i, x);
      }
      if i :| InSession(hash, sessions, max, i, x) && sessions[i].cwd == cwd {
        InEarlierSession(hash, sessions, max, i, x);
      }
    }
  }

  /** ... and counts the readable ones. */
  lemma {:induction false} ReadableAreCounted(sessions: seq<Found>)
    ensures Readable(sessions) == |set i | 0 <= i < |sessions| && sessions[i].messages.Some?|
  {
    var all := set i | 0 <= i < |sessions| && sessions[i].messages.Some?;
    if sessions != [] {
      var n := |sessions| - 1;
      var init := set i | 0 <= i < n && sessions[..n][i].messages.Some?;
      ReadableAreCounted(sessions[..n]);
      assert |sessions[..n]| == n;
      assert init == set i | 0 <= i < |sessions[..n]| && sessions[..n][i].messages.Some?;
      if sessions[n].messages.Some? {
        assert all == init + {n};
      } else {
        assert all == init;
      }
    }
  }
}
