/** The recorder keeps sessions apart: however their streams are interleaved, each session's rows
    are those its own events alone produce. */
module RecorderFacts {
  import opened Text
  import opened RunModel
  import opened Recorder

  // ---- recording one session alone, without ids ------------------------------

  /** One session's history: its runs, whether the last one is open, and where open requests sit. */
  datatype Log = Log(runs: seq<RunView>, open: bool, pending: map<string, (nat, nat)>)

  const NO_LOG := Log([], false, map[])

  function SetLast<T>(s: seq<T>, x: T): seq<T>
    requires s != []
  {
    s[..|s| - 1] + [x]
  }

  function Last<T>(s: seq<T>): T
    requires s != []
  {
    s[|s| - 1]
  }

  function EndLast(l: Log, end: RunEnd): Log {
    if l.open && l.runs != [] then Log(SetLast(l.runs, Last(l.runs).(end := end)), false, l.pending)
    else l.(open := false)
  }

  /** What one of its own events adds to a session's history. */
  function Step(l: Log, e: Event): Log {
    match e
    case Start(_) => Log(l.runs + [RunView(Running, [], [])], true, l.pending)
    case Turn(n, prompt, text) =>
      if !l.open || l.runs == [] then l
      else
        var run := Last(l.runs);
        l.(runs := SetLast(l.runs, run.(turns := run.turns + [TurnView(TurnCols(n, prompt, text), [])])))
    case Decided(_, d) =>
      if !l.open || l.runs == [] || Last(l.runs).turns == [] then l
      else
        var run := Last(l.runs);
        var turn := Last(run.turns);
        var turns := SetLast(run.turns, turn.(decisions := turn.decisions + [Columns(d)]));
        l.(runs := SetLast(l.runs, run.(turns := turns)))
    case Attention(_, q) =>
      if !l.open || l.runs == [] then l.(pending := l.pending - {q.id})
      else
        var run := Last(l.runs);
        var turn := if run.turns != [] then Some(Last(run.turns).cols.n) else None;
        var seen := AttentionView(turn, q.question, q.options, None);
        l.(runs := SetLast(l.runs, run.(attentions := run.attentions + [seen])),
           pending := l.pending[q.id := (|l.runs| - 1, |run.attentions|)])
    case AttentionResolved(q, resolution) =>
      var runs :=
        if q.id in l.pending then
          var (k, j) := l.pending[q.id];
          if k < |l.runs| && j < |l.runs[k].attentions| then
            var a := l.runs[k].attentions[j].(chosen := Some(ChosenName(resolution)));
            l.runs[k := l.runs[k].(attentions := l.runs[k].attentions[j := a])]
          else l.runs
        else l.runs;
      Log(runs, l.open, l.pending - {q.id})
    case Stop(why, turns) => EndLast(l, EndedAs(why, turns))
    case Error(message) => EndLast(l, ErroredAs(message))
    case _ => l
  }

  function Steps(l: Log, events: seq<Event>): Log {
    if events == [] then l else Step(Steps(l, events[..|events| - 1]), events[|events| - 1])
  }

  /** One session's events out of an interleaved stream. */
  function Project(stream: seq<(string, Event)>, session: string): seq<Event> {
    if stream == [] then []
    else
      var n := |stream| - 1;
      Project(stream[..n], session) + if stream[n].0 == session then [stream[n].1] else []
  }

  // ---- the representation invariant ------------------------------------------

  /** Parents exist; each map entry points at the newest row of its kind. `owner` says which session
      a request id belongs to. */
  ghost predicate Good(owner: string -> string, r: Rec) {
    && Rooted(r)
    && (forall s :: s in r.runOf ==> OpenRun(r, s))
    && (forall s :: s in r.turnOf ==> s in r.runOf)
    && (forall q :: q in r.attentionOf ==> Owned(owner, r, q))
  }

  /** Every foreign key names a row. */
  ghost predicate Rooted(r: Rec) {
    && (forall i :: 0 <= i < |r.turns| ==> r.turns[i].parent < |r.runs|)
    && (forall i :: 0 <= i < |r.decisions| ==> r.decisions[i].parent < |r.turns|)
    && (forall i :: 0 <= i < |r.attentions| ==> r.attentions[i].parent.Some? ==>
        r.attentions[i].parent.value < |r.runs|)
    && (forall i :: 0 <= i < |r.attentions| ==> Known(r, r.attentions[i].value))
  }

  predicate Known(r: Rec, c: AttentionCols) {
    c.turn.Some? ==> c.turn.value < |r.turns|
  }

  /** The session's open run is its newest row, still running, and its last turn is the newest of that run. */
  ghost predicate OpenRun(r: Rec, s: string)
    requires s in r.runOf
  {
    var run := r.runOf[s];
    && run < |r.runs| && r.runs[run] == Row(s, Running)
    && Children(r.runs, s) != [] && Last(Children(r.runs, s)) == run
    && (s in r.turnOf <==> Children(r.turns, run) != [])
    && (s in r.turnOf ==> Last(Children(r.turns, run)) == r.turnOf[s] < |r.turns|)
  }

  ghost predicate Owned(owner: string -> string, r: Rec, q: string)
    requires q in r.attentionOf
  {
    var id := r.attentionOf[q];
    && id < |r.attentions|
    && (r.attentions[id].parent.Some? ==>
        r.attentions[id].parent.value < |r.runs| && r.runs[r.attentions[id].parent.value].parent == owner(q))
  }

  /** The tables hold exactly `l` for session `s`. */
  ghost predicate Holds(owner: string -> string, r: Rec, s: string, l: Log) {
    && l.runs == ViewSession(r, s)
    && (l.open <==> s in r.runOf)
    && forall q :: owner(q) == s ==> Located(r, s, l, q)
  }

  /** An open request of the session sits where the log says. */
  ghost predicate Located(r: Rec, s: string, l: Log, q: string) {
    && (q in l.pending <==>
        q in r.attentionOf && r.attentionOf[q] < |r.attentions| && r.attentions[r.attentionOf[q]].parent.Some?)
    && (q in l.pending ==>
          var (k, j) := l.pending[q];
          && k < |Children(r.runs, s)|
          && j < |Children(r.attentions, Some(Children(r.runs, s)[k]))|
          && Children(r.attentions, Some(Children(r.runs, s)[k]))[j] == r.attentionOf[q])
  }

  /** Request ids belong to one session. */
  ghost predicate Tagged(owner: string -> string, session: string, e: Event) {
    && (e.Attention? ==> owner(e.request.id) == session)
    && (e.AttentionResolved? ==> owner(e.request.id) == session)
  }

  // ---- what appending and updating rows does to the views --------------------

  lemma DecisionsAppend(decisions: seq<Row<nat, DecisionCols>>, row: Row<nat, DecisionCols>, turn: nat)
    ensures DecisionsOfTurn(decisions + [row], turn)
            == if row.parent == turn then DecisionsOfTurn(decisions, turn) + [row.value]
               else DecisionsOfTurn(decisions, turn)
  {
    ChildrenAppend(decisions, row, turn);
    ChildrenFacts(decisions, turn);
  }

  lemma {:induction false} NoChildren<K, V>(table: seq<Row<K, V>>, parent: K)
    requires forall i :: 0 <= i < |table| ==> table[i].parent != parent
    ensures Children(table, parent) == []
  {
    if table != [] {
      NoChildren(table[..|table| - 1], parent);
    }
  }

  lemma TurnsAppend(turns: seq<Row<nat, TurnCols>>, decisions: seq<Row<nat, DecisionCols>>, row: Row<nat, TurnCols>,
                    run: nat)
    requires forall i :: 0 <= i < |decisions| ==> decisions[i].parent < |turns|
    ensures TurnsOfRun(turns + [row], decisions, run)
            == TurnsOfRun(turns, decisions, run) + if row.parent == run then [TurnView(row.value, [])] else []
  {
    ChildrenAppend(turns, row, run);
    ChildrenFacts(turns, run);
    NoChildren(decisions, |turns|);
    assert DecisionsOfTurn(decisions, |turns|) == [];
    var ids, more := Children(turns, run), Children(turns + [row], run);
    forall i | 0 <= i < |ids|
      ensures more[i] == ids[i] && (turns + [row])[ids[i]] == turns[ids[i]]
    {
    }
    assert TurnsOfRun(turns + [row], decisions, run)[..|ids|] == TurnsOfRun(turns, decisions, run);
  }

  /** A decision changes only the turn it hangs on. */
  lemma HangElsewhere(turns: seq<Row<nat, TurnCols>>, decisions: seq<Row<nat, DecisionCols>>,
                      row: Row<nat, DecisionCols>, run: nat)
    requires row.parent < |turns| && turns[row.parent].parent != run
    ensures TurnsOfRun(turns, decisions + [row], run) == TurnsOfRun(turns, decisions, run)
  {
    ChildrenFacts(turns, run);
    var ids := Children(turns, run);
    forall i | 0 <= i < |ids|
      ensures DecisionsOfTurn(decisions + [row], ids[i]) == DecisionsOfTurn(decisions, ids[i])
    {
      assert turns[ids[i]].parent == run;
      DecisionsAppend(decisions, row, ids[i]);
    }
  }

  lemma HangOnLast(turns: seq<Row<nat, TurnCols>>, decisions: seq<Row<nat, DecisionCols>>, row: Row<nat, DecisionCols>,
                   run: nat)
    requires row.parent < |turns| && Children(turns, run) != [] && Last(Children(turns, run)) == row.parent
    ensures TurnsOfRun(turns, decisions, run) != []
    ensures var old' := TurnsOfRun(turns, decisions, run);
            TurnsOfRun(turns, decisions + [row], run)
              == SetLast(old', Last(old').(decisions := Last(old').decisions + [row.value]))
  {
    var n := |Children(turns, run)| - 1;
    var before, after := TurnsOfRun(turns, decisions, run), TurnsOfRun(turns, decisions + [row], run);
    TurnAt(turns, decisions, run, n);
    TurnAt(turns, decisions + [row], run, n);
    DecisionsAppend(decisions, row, row.parent);
    forall i | 0 <= i < n
      ensures after[i] == before[i]
    {
      EarlierTurnStays(turns, decisions, row, run, i);
    }
    OnlyLastDiffers(before, after);
  }

  lemma TurnAt(turns: seq<Row<nat, TurnCols>>, decisions: seq<Row<nat, DecisionCols>>, run: nat, i: nat)
    requires i < |Children(turns, run)|
    ensures |TurnsOfRun(turns, decisions, run)| == |Children(turns, run)| && Children(turns, run)[i] < |turns|
    ensures TurnsOfRun(turns, decisions, run)[i]
            == TurnView(turns[Children(turns, run)[i]].value, DecisionsOfTurn(decisions, Children(turns, run)[i]))
  {
    ChildrenFacts(turns, run);
  }

  lemma EarlierTurnStays(turns: seq<Row<nat, TurnCols>>, decisions: seq<Row<nat, DecisionCols>>,
                         row: Row<nat, DecisionCols>, run: nat, i: nat)
    requires i + 1 < |Children(turns, run)| && Last(Children(turns, run)) == row.parent
    ensures i < |TurnsOfRun(turns, decisions, run)| && i < |TurnsOfRun(turns, decisions + [row], run)|
    ensures TurnsOfRun(turns, decisions + [row], run)[i] == TurnsOfRun(turns, decisions, run)[i]
  {
    ChildrenFacts(turns, run);
    TurnAt(turns, decisions, run, i);
    TurnAt(turns, decisions + [row], run, i);
    DecisionsAppend(decisions, row, Children(turns, run)[i]);
  }

  lemma OnlyLastDiffers<T>(before: seq<T>, after: seq<T>)
    requires |before| == |after| > 0 && forall i :: 0 <= i < |before| - 1 ==> after[i] == before[i]
    ensures after == SetLast(before, Last(after))
  {
  }

  lemma AttentionAt(turns: seq<Row<nat, TurnCols>>, attentions: seq<Row<Option<nat>, AttentionCols>>, run: nat, i: nat)
    requires i < |Children(attentions, Some(run))|
    ensures |AttentionsOfRun(turns, attentions, run)| == |Children(attentions, Some(run))|
    ensures Children(attentions, Some(run))[i] < |attentions|
    ensures AttentionsOfRun(turns, attentions, run)[i]
            == Seen(turns, attentions[Children(attentions, Some(run))[i]].value)
  {
    ChildrenFacts(attentions, Some(run));
  }

  lemma AttentionsAppend(turns: seq<Row<nat, TurnCols>>, attentions: seq<Row<Option<nat>, AttentionCols>>,
                         row: Row<Option<nat>, AttentionCols>, run: nat)
    ensures AttentionsOfRun(turns, attentions + [row], run) ==
            if row.parent == Some(run) then AttentionsOfRun(turns, attentions, run) + [Seen(turns, row.value)]
            else AttentionsOfRun(turns, attentions, run)
  {
    ChildrenAppend(attentions, row, Some(run));
    ChildrenFacts(attentions, Some(run));
  }

  /** A further turn changes nothing about the requests already stored. */
  lemma AttentionsSeeTheirTurn(r: Rec, row: Row<nat, TurnCols>, run: nat)
    requires Rooted(r)
    ensures AttentionsOfRun(r.turns + [row], r.attentions, run) == AttentionsOfRun(r.turns, r.attentions, run)
  {
    var ids := Children(r.attentions, Some(run));
    forall i | 0 <= i < |ids|
      ensures AttentionsOfRun(r.turns + [row], r.attentions, run)[i] == AttentionsOfRun(r.turns, r.attentions, run)[i]
    {
      AttentionAt(r.turns, r.attentions, run, i);
      AttentionAt(r.turns + [row], r.attentions, run, i);
      assert Known(r, r.attentions[ids[i]].value);
    }
  }

  lemma AttentionsUpdate(turns: seq<Row<nat, TurnCols>>, attentions: seq<Row<Option<nat>, AttentionCols>>,
                         id: nat, v: AttentionCols, run: nat, j: nat)
    requires id < |attentions|
    requires attentions[id].parent == Some(run) ==>
               j < |Children(attentions, Some(run))| && Children(attentions, Some(run))[j] == id
    ensures |AttentionsOfRun(turns, attentions, run)| == |Children(attentions, Some(run))|
    ensures AttentionsOfRun(turns, attentions[id := attentions[id].(value := v)], run) ==
            if attentions[id].parent == Some(run) then AttentionsOfRun(turns, attentions, run)[j := Seen(turns, v)]
            else AttentionsOfRun(turns, attentions, run)
  {
    var changed := attentions[id := attentions[id].(value := v)];
    ChildrenUpdate(attentions, id, v, Some(run));
    ChildrenFacts(attentions, Some(run));
    var ids := Children(attentions, Some(run));
    forall i | 0 <= i < |ids|
      ensures AttentionsOfRun(turns, changed, run)[i] ==
              if ids[i] == id then Seen(turns, v) else AttentionsOfRun(turns, attentions, run)[i]
    {
      AttentionAt(turns, attentions, run, i);
      AttentionAt(turns, changed, run, i);
    }
    if attentions[id].parent == Some(run) {
      assert forall i :: 0 <= i < |ids| && i != j ==> ids[i] != ids[j];
    } else {
      assert forall i :: 0 <= i < |ids| ==> ids[i] != id;
    }
  }

  // ---- one event: the owner's log steps, every other log stays ----------------

  ghost predicate Carries(owner: string -> string, r: Rec, session: string, e: Event, s: string, l: Log) {
    Holds(owner, Record(r, session, e), s, if s == session then Step(l, e) else l)
  }

  lemma RunsAppend(r: Rec, session: string, s: string)
    requires forall i :: 0 <= i < |r.turns| ==> r.turns[i].parent < |r.runs|
    requires forall i :: 0 <= i < |r.attentions| ==> r.attentions[i].parent.Some? ==>
             r.attentions[i].parent.value < |r.runs|
    ensures var r' := r.(runs := r.runs + [Row(session, Running)]);
            ViewSession(r', s) == ViewSession(r, s) + if s == session then [RunView(Running, [], [])] else []
  {
    var r' := r.(runs := r.runs + [Row(session, Running)]);
    ChildrenAppend(r.runs, Row(session, Running), s);
    ChildrenFacts(r.runs, s);
    NoChildren(r.turns, |r.runs|);
    NoChildren(r.attentions, Some(|r.runs|));
    var ids := Children(r.runs, s);
    assert ViewSession(r', s)[..|ids|] == ViewSession(r, s);
    if s == session {
      assert ViewRun(r', |r.runs|) == RunView(Running, [], []);
    }
  }

  /** Changing one run's own view changes one entry of its session and nothing else. */
  lemma ViewLocal(r: Rec, r': Rec, run: nat, s: string, k: nat)
    requires |r'.runs| == |r.runs| && run < |r.runs|
    requires forall x :: 0 <= x < |r.runs| ==> r'.runs[x].parent == r.runs[x].parent
    requires Children(r'.runs, s) == Children(r.runs, s)
    requires forall x :: 0 <= x < |r.runs| && x != run ==> ViewRun(r', x) == ViewRun(r, x)
    requires r.runs[run].parent == s ==> k < |Children(r.runs, s)| && Children(r.runs, s)[k] == run
    ensures |ViewSession(r, s)| == |Children(r.runs, s)|
    ensures ViewSession(r', s)
            == if r.runs[run].parent == s then ViewSession(r, s)[k := ViewRun(r', run)] else ViewSession(r, s)
  {
    ChildrenFacts(r.runs, s);
    var ids := Children(r.runs, s);
    forall i | 0 <= i < |ids| && (r.runs[run].parent != s || i != k)
      ensures ViewRun(r', ids[i]) == ViewRun(r, ids[i])
    {
      if r.runs[run].parent == s {
        assert ids[i] != ids[k] by {
          if i < k { assert ids[i] < ids[k]; } else { assert ids[k] < ids[i]; }
        }
      } else {
        assert r.runs[ids[i]].parent == s;
      }
    }
  }

  lemma CarriesStart(owner: string -> string, r: Rec, session: string, goal: string, s: string, l: Log)
    requires Good(owner, r) && Holds(owner, r, s, l)
    ensures Carries(owner, r, session, Start(goal), s, l)
  {
    RunsAppend(r, session, s);
    var r' := Record(r, session, Start(goal));
    ChildrenAppend(r.runs, Row(session, Running), s);
    assert ViewSession(r', s) == ViewSession(r.(runs := r'.runs), s);
    var l' := if s == session then Step(l, Start(goal)) else l;
    forall q | owner(q) == s
      ensures Located(r', s, l', q)
    {
      assert Located(r, s, l, q);
    }
  }

  lemma OpenRunIsLastChild(owner: string -> string, r: Rec, session: string)
    requires Good(owner, r) && session in r.runOf
    ensures Children(r.runs, session) != [] && Last(Children(r.runs, session)) == r.runOf[session] < |r.runs|
    ensures r.runs[r.runOf[session]] == Row(session, Running)
  {
    assert OpenRun(r, session);
  }

  lemma LastView(r: Rec, s: string)
    requires Children(r.runs, s) != []
    ensures |ViewSession(r, s)| == |Children(r.runs, s)| && Last(Children(r.runs, s)) < |r.runs|
    ensures ViewSession(r, s)[|ViewSession(r, s)| - 1] == ViewRun(r, Last(Children(r.runs, s)))
  {
    ChildrenFacts(r.runs, s);
  }

  /** The open run sits last in its session's view. */
  lemma OpenRunIsLast(owner: string -> string, r: Rec, session: string)
    requires Good(owner, r) && session in r.runOf
    ensures r.runOf[session] < |r.runs|
    ensures |ViewSession(r, session)| == |Children(r.runs, session)| > 0
    ensures Children(r.runs, session)[|Children(r.runs, session)| - 1] == r.runOf[session]
    ensures ViewSession(r, session)[|ViewSession(r, session)| - 1] == ViewRun(r, r.runOf[session])
  {
    OpenRunIsLastChild(owner, r, session);
    LastView(r, session);
  }

  lemma SetLastIsUpdate<T>(s: seq<T>, x: T)
    requires s != []
    ensures s[|s| - 1 := x] == SetLast(s, x)
  {
  }

  /** Changing only the open run's view steps the owner's log and keeps every other. */
  lemma OpenRunChanged(owner: string -> string, r: Rec, r': Rec, session: string, s: string)
    requires Good(owner, r) && session in r.runOf
    requires |r'.runs| == |r.runs| && forall x :: 0 <= x < |r.runs| ==> r'.runs[x].parent == r.runs[x].parent
    requires Children(r'.runs, s) == Children(r.runs, s)
    requires forall x :: 0 <= x < |r.runs| && x != r.runOf[session] ==> ViewRun(r', x) == ViewRun(r, x)
    ensures ViewSession(r, session) != []
    ensures Last(ViewSession(r, session)) == ViewRun(r, r.runOf[session])
    ensures ViewSession(r', s)
            == if s == session then SetLast(ViewSession(r, s), ViewRun(r', r.runOf[session])) else ViewSession(r, s)
  {
    OpenRunIsLast(owner, r, session);
    OpenRunIsLastChild(owner, r, session);
    ViewLocal(r, r', r.runOf[session], s, |Children(r.runs, session)| - 1);
    if s == session {
      SetLastIsUpdate(ViewSession(r, s), ViewRun(r', r.runOf[session]));
    }
  }

  /** What neither writes requests nor adds runs leaves every open request where it is. */
  lemma LocatedStays(r: Rec, r': Rec, s: string, l: Log, l': Log, q: string)
    requires Located(r, s, l, q) && l'.pending == l.pending
    requires r'.attentions == r.attentions && r'.attentionOf == r.attentionOf
             && Children(r'.runs, s) == Children(r.runs, s)
    ensures Located(r', s, l', q)
  {
  }

  lemma HoldsAfter(owner: string -> string, r: Rec, r': Rec, s: string, l: Log, l': Log)
    requires Holds(owner, r, s, l) && l'.pending == l.pending
    requires r'.attentions == r.attentions && r'.attentionOf == r.attentionOf
             && Children(r'.runs, s) == Children(r.runs, s)
    requires l'.runs == ViewSession(r', s) && (l'.open <==> s in r'.runOf)
    ensures Holds(owner, r', s, l')
  {
    forall q | owner(q) == s
      ensures Located(r', s, l', q)
    {
      assert Located(r, s, l, q);
      LocatedStays(r, r', s, l, l', q);
    }
  }

  lemma TurnRuns(owner: string -> string, r: Rec, session: string, e: Event, s: string, l: Log)
    requires Good(owner, r) && Holds(owner, r, s, l) && e.Turn? && session in r.runOf
    ensures ViewSession(Record(r, session, e), s) == if s == session then Step(l, e).runs else l.runs
  {
    var r' := Record(r, session, e);
    var row := Row(r.runOf[session], TurnCols(e.n, e.prompt, e.text));
    forall x | 0 <= x < |r.runs|
      ensures TurnsOfRun(r'.turns, r.decisions, x) ==
              TurnsOfRun(r.turns, r.decisions, x) + if row.parent == x then [TurnView(row.value, [])] else []
      ensures AttentionsOfRun(r'.turns, r.attentions, x) == AttentionsOfRun(r.turns, r.attentions, x)
    {
      TurnsAppend(r.turns, r.decisions, row, x);
      AttentionsSeeTheirTurn(r, row, x);
    }
    OpenRunIsLastChild(owner, r, session);
    OpenRunChanged(owner, r, r', session, s);
  }

  lemma CarriesTurn(owner: string -> string, r: Rec, session: string, n: nat, prompt: string, text: string, s: string,
                    l: Log)
    requires Good(owner, r) && Holds(owner, r, s, l)
    ensures Carries(owner, r, session, Turn(n, prompt, text), s, l)
  {
    var e := Turn(n, prompt, text);
    RestStays(r, session, e);
    LogRestStays(l, e);
    if session in r.runOf {
      TurnRuns(owner, r, session, e, s, l);
    }
    HoldsAfter(owner, r, Record(r, session, e), s, l, if s == session then Step(l, e) else l);
  }

  /** Neither a turn nor a decision touches runs or requests. */
  lemma RestStays(r: Rec, session: string, e: Event)
    requires e.Turn? || e.Decided?
    ensures var r' := Record(r, session, e);
            && r'.attentions == r.attentions && r'.attentionOf == r.attentionOf
            && r'.runs == r.runs && r'.runOf == r.runOf
            && (e.Turn? && session !in r.runOf ==> r' == r)
            && (e.Decided? && session !in r.turnOf ==> r' == r)
  {
  }

  lemma LogRestStays(l: Log, e: Event)
    requires e.Turn? || e.Decided?
    ensures Step(l, e).pending == l.pending && Step(l, e).open == l.open && (!l.open ==> Step(l, e) == l)
  {
  }

  lemma DecidedRuns(owner: string -> string, r: Rec, session: string, e: Event, s: string, l: Log)
    requires Good(owner, r) && Holds(owner, r, s, l) && e.Decided? && session in r.turnOf
    ensures ViewSession(Record(r, session, e), s) == if s == session then Step(l, e).runs else l.runs
  {
    var r' := Record(r, session, e);
    assert OpenRun(r, session);
    var run := r.runOf[session];
    var row := Row(r.turnOf[session], Columns(e.decision));
    ChildrenFacts(r.turns, run);
    HangOnLast(r.turns, r.decisions, row, run);
    forall x | 0 <= x < |r.runs| && x != run
      ensures ViewRun(r', x) == ViewRun(r, x)
    {
      HangElsewhere(r.turns, r.decisions, row, x);
    }
    OpenRunChanged(owner, r, r', session, s);
  }

  lemma NothingToDecideOn(owner: string -> string, r: Rec, session: string, e: Event, l: Log)
    requires Good(owner, r) && Holds(owner, r, session, l) && e.Decided? && session !in r.turnOf
    ensures Step(l, e) == l
  {
    if session in r.runOf {
      OpenRunIsLast(owner, r, session);
      OpenRunTurns(owner, r, session);
    }
  }

  lemma CarriesDecided(owner: string -> string, r: Rec, session: string, n: nat, d: Decision, s: string, l: Log)
    requires Good(owner, r) && Holds(owner, r, s, l)
    ensures Carries(owner, r, session, Decided(n, d), s, l)
  {
    var e := Decided(n, d);
    RestStays(r, session, e);
    LogRestStays(l, e);
    DecidedView(owner, r, session, e, s, l);
    HoldsAfter(owner, r, Record(r, session, e), s, l, if s == session then Step(l, e) else l);
  }

  lemma DecidedView(owner: string -> string, r: Rec, session: string, e: Event, s: string, l: Log)
    requires Good(owner, r) && Holds(owner, r, s, l) && e.Decided?
    ensures ViewSession(Record(r, session, e), s) == if s == session then Step(l, e).runs else l.runs
  {
    if session in r.turnOf {
      DecidedRuns(owner, r, session, e, s, l);
    } else if s == session {
      NothingToDecideOn(owner, r, session, e, l);
    }
  }

  lemma EndRuns(owner: string -> string, r: Rec, session: string, end: RunEnd, s: string, l: Log)
    requires Good(owner, r) && Holds(owner, r, s, l) && session in r.runOf
    ensures Children(EndRun(r, session, end).runs, s) == Children(r.runs, s)
    ensures ViewSession(EndRun(r, session, end), s) == if s == session then EndLast(l, end).runs else l.runs
  {
    OpenRunIsLastChild(owner, r, session);
    ChildrenUpdate(r.runs, r.runOf[session], end, s);
    OpenRunChanged(owner, r, EndRun(r, session, end), session, s);
  }

  lemma CarriesEnd(owner: string -> string, r: Rec, session: string, end: RunEnd, s: string, l: Log)
    requires Good(owner, r) && Holds(owner, r, s, l)
    ensures Holds(owner, EndRun(r, session, end), s, if s == session then EndLast(l, end) else l)
  {
    if session in r.runOf {
      EndRuns(owner, r, session, end, s, l);
    }
    HoldsAfter(owner, r, EndRun(r, session, end), s, l, if s == session then EndLast(l, end) else l);
  }

  // ---- attention requests -----------------------------------------------------

  /** The row a request is stored as. */
  function AttentionRow(r: Rec, session: string, q: Request): Row<Option<nat>, AttentionCols> {
    Row(if session in r.runOf then Some(r.runOf[session]) else None,
        AttentionCols(if session in r.turnOf then Some(r.turnOf[session]) else None, q.question, q.options, None))
  }

  /** Appending rows keeps the position of every earlier one. */
  lemma LocatedAfterAppend(r: Rec, row: Row<Option<nat>, AttentionCols>, parent: Option<nat>, j: nat)
    requires j < |Children(r.attentions, parent)|
    ensures j < |Children(r.attentions + [row], parent)|
    ensures Children(r.attentions + [row], parent)[j] == Children(r.attentions, parent)[j]
  {
    ChildrenAppend(r.attentions, row, parent);
  }

  lemma LocatedItself(owner: string -> string, r: Rec, session: string, e: Event, l: Log)
    requires Good(owner, r) && Holds(owner, r, session, l)
    requires e.Attention? && owner(e.request.id) == session
    ensures Located(Record(r, session, e), session, Step(l, e), e.request.id)
  {
    var run := if session in r.runOf then Some(r.runOf[session]) else None;
    var row := AttentionRow(r, session, e.request);
    if session in r.runOf {
      OpenRunIsLast(owner, r, session);
      ChildrenAppend(r.attentions, row, run);
      assert |AttentionsOfRun(r.turns, r.attentions, run.value)| == |Children(r.attentions, run)|;
    }
  }

  lemma LocatedNew(owner: string -> string, r: Rec, session: string, e: Event, l: Log, q: string)
    requires Good(owner, r) && Holds(owner, r, session, l) && owner(q) == session
    requires e.Attention? && owner(e.request.id) == session
    ensures Located(Record(r, session, e), session, Step(l, e), q)
  {
    var run := if session in r.runOf then Some(r.runOf[session]) else None;
    var row := AttentionRow(r, session, e.request);
    assert Located(r, session, l, q);
    if q == e.request.id {
      LocatedItself(owner, r, session, e, l);
    } else if q in l.pending {
      var (k, j) := l.pending[q];
      LocatedAfterAppend(r, row, Some(Children(r.runs, session)[k]), j);
    }
  }

  lemma LocatedOther(owner: string -> string, r: Rec, session: string, e: Event, s: string, l: Log, q: string)
    requires Good(owner, r) && Holds(owner, r, s, l) && owner(q) == s != session
    requires e.Attention? && owner(e.request.id) == session
    ensures Located(Record(r, session, e), s, l, q)
  {
    var run := if session in r.runOf then Some(r.runOf[session]) else None;
    var row := AttentionRow(r, session, e.request);
    assert Located(r, s, l, q);
    if q in l.pending {
      var (k, j) := l.pending[q];
      LocatedAfterAppend(r, row, Some(Children(r.runs, s)[k]), j);
    }
  }

  lemma LocatedAll(owner: string -> string, r: Rec, session: string, e: Event, s: string, l: Log, q: string)
    requires Good(owner, r) && Holds(owner, r, s, l) && owner(q) == s
    requires e.Attention? && owner(e.request.id) == session
    ensures Located(Record(r, session, e), s, if s == session then Step(l, e) else l, q)
  {
    if s == session {
      LocatedNew(owner, r, session, e, l, q);
    } else {
      LocatedOther(owner, r, session, e, s, l, q);
    }
  }

  lemma CarriesAttention(owner: string -> string, r: Rec, session: string, n: nat, request: Request, s: string, l: Log)
    requires Good(owner, r) && Holds(owner, r, s, l) && owner(request.id) == session
    ensures Carries(owner, r, session, Attention(n, request), s, l)
  {
    var e := Attention(n, request);
    forall q | owner(q) == s
      ensures Located(Record(r, session, e), s, if s == session then Step(l, e) else l, q)
    {
      LocatedAll(owner, r, session, e, s, l, q);
    }
    AttentionRuns(owner, r, session, e, s, l);
  }

  lemma AttentionRuns(owner: string -> string, r: Rec, session: string, e: Event, s: string, l: Log)
    requires Good(owner, r) && Holds(owner, r, s, l) && e.Attention?
    ensures ViewSession(Record(r, session, e), s) == if s == session then Step(l, e).runs else l.runs
  {
    var row := AttentionRow(r, session, e.request);
    AttentionRowView(owner, r, session, row, s);
    assert ViewSession(Record(r, session, e), s) == ViewSession(r.(attentions := r.attentions + [row]), s);
    if s == session && session in r.runOf {
      OpenRunTurns(owner, r, session);
    }
  }

  /** The last turn of the open run, in the maps and in the view. */
  lemma OpenRunTurns(owner: string -> string, r: Rec, session: string)
    requires Good(owner, r) && session in r.runOf
    ensures var turns := TurnsOfRun(r.turns, r.decisions, r.runOf[session]);
            && (session in r.turnOf <==> turns != [])
            && (session in r.turnOf ==>
                r.turnOf[session] < |r.turns| && r.turns[r.turnOf[session]].value == Last(turns).cols)
  {
    assert OpenRun(r, session);
    var ids := Children(r.turns, r.runOf[session]);
    if ids != [] {
      TurnAt(r.turns, r.decisions, r.runOf[session], |ids| - 1);
    }
  }

  lemma AttentionRowView(owner: string -> string, r: Rec, session: string, row: Row<Option<nat>, AttentionCols>,
                         s: string)
    requires Good(owner, r)
    requires row.parent == if session in r.runOf then Some(r.runOf[session]) else None
    ensures session in r.runOf ==>
              && ViewSession(r, session) != [] && r.runOf[session] < |r.runs|
              && Last(ViewSession(r, session)) == ViewRun(r, r.runOf[session])
    ensures ViewSession(r.(attentions := r.attentions + [row]), s) ==
            if s == session && session in r.runOf then
              var run := ViewRun(r, r.runOf[session]);
              SetLast(ViewSession(r, s), run.(attentions := run.attentions + [Seen(r.turns, row.value)]))
            else ViewSession(r, s)
  {
    var r' := r.(attentions := r.attentions + [row]);
    forall x | 0 <= x < |r.runs|
      ensures ViewRun(r', x) == AfterRequest(r, row, x)
    {
      AttentionsAppend(r.turns, r.attentions, row, x);
    }
    if session in r.runOf {
      OpenRunIsLastChild(owner, r, session);
      OpenRunChanged(owner, r, r', session, s);
    } else {
      SameViews(r, r', s);
    }
  }

  /** A run's view after one more request row. */
  function AfterRequest(r: Rec, row: Row<Option<nat>, AttentionCols>, x: nat): RunView
    requires x < |r.runs|
  {
    var run := ViewRun(r, x);
    if row.parent == Some(x) then run.(attentions := run.attentions + [Seen(r.turns, row.value)]) else run
  }

  lemma SameViews(r: Rec, r': Rec, s: string)
    requires r'.runs == r.runs && forall x :: 0 <= x < |r.runs| ==> ViewRun(r', x) == ViewRun(r, x)
    ensures ViewSession(r', s) == ViewSession(r, s)
  {
    ChildrenFacts(r.runs, s);
  }

  lemma LocatedUpdate(r: Rec, s: string, l: Log, p: string, id: nat, v: AttentionCols)
    requires Located(r, s, l, p) && id < |r.attentions|
    ensures Located(r.(attentions := r.attentions[id := r.attentions[id].(value := v)]), s, l, p)
  {
    if p in l.pending {
      ChildrenUpdate(r.attentions, id, v, Some(Children(r.runs, s)[l.pending[p].0]));
    }
  }

  lemma LocatedForget(r: Rec, s: string, l: Log, l': Log, p: string, q: string)
    requires Located(r, s, l, p) && (l'.pending == l.pending - {q} || (l'.pending == l.pending && p != q))
    ensures Located(r.(attentionOf := r.attentionOf - {q}), s, l', p)
  {
  }

  lemma LocatedResolved(owner: string -> string, r: Rec, session: string, e: Event, s: string, l: Log, p: string)
    requires Good(owner, r) && Holds(owner, r, s, l) && owner(p) == s
    requires e.AttentionResolved? && owner(e.request.id) == session
    ensures Located(Record(r, session, e), s, if s == session then Step(l, e) else l, p)
  {
    var q := e.request.id;
    var l' := if s == session then Step(l, e) else l;
    assert Located(r, s, l, p);
    if q in r.attentionOf {
      assert Owned(owner, r, q);
      var id := r.attentionOf[q];
      var v := r.attentions[id].value.(chosen := Some(ChosenName(e.resolution)));
      LocatedUpdate(r, s, l, p, id, v);
      LocatedForget(r.(attentions := r.attentions[id := r.attentions[id].(value := v)]), s, l, l', p, q);
    } else {
      LocatedForget(r, s, l, l', p, q);
    }
  }

  lemma CarriesResolved(owner: string -> string, r: Rec, session: string, request: Request, resolution: Resolution,
                        s: string, l: Log)
    requires Good(owner, r) && Holds(owner, r, s, l) && owner(request.id) == session
    ensures Carries(owner, r, session, AttentionResolved(request, resolution), s, l)
  {
    var e := AttentionResolved(request, resolution);
    var r' := Record(r, session, e);
    var l' := if s == session then Step(l, e) else l;
    forall p | owner(p) == s
      ensures Located(r', s, l', p)
    {
      LocatedResolved(owner, r, session, e, s, l, p);
    }
    assert l'.runs == ViewSession(r', s) by {
      ResolvedRuns(owner, r, session, e, s, l);
    }
  }

  lemma ResolvedRuns(owner: string -> string, r: Rec, session: string, e: Event, s: string, l: Log)
    requires Good(owner, r) && Holds(owner, r, s, l)
    requires e.AttentionResolved? && owner(e.request.id) == session
    ensures ViewSession(Record(r, session, e), s) == if s == session then Step(l, e).runs else l.runs
  {
    var q := e.request.id;
    var r' := Record(r, session, e);
    if q in r.attentionOf {
      assert Owned(owner, r, q);
      var id := r.attentionOf[q];
      var v := r.attentions[id].value.(chosen := Some(ChosenName(e.resolution)));
      var mid := r.(attentions := r.attentions[id := r.attentions[id].(value := v)]);
      assert ViewSession(r', s) == ViewSession(mid, s);
      ResolvedView(owner, r, session, q, v, s, l);
      if s == session && q in l.pending {
        PendingRow(owner, r, s, l, q);
      }
    } else if s == session {
      assert Located(r, s, l, q);
    }
  }

  /** A pending request's columns in the log are those of its row. */
  lemma PendingRow(owner: string -> string, r: Rec, s: string, l: Log, q: string)
    requires Holds(owner, r, s, l) && owner(q) == s && q in l.pending
    ensures var (k, j) := l.pending[q];
            && k < |l.runs| && j < |l.runs[k].attentions|
            && q in r.attentionOf && r.attentionOf[q] < |r.attentions|
            && l.runs[k].attentions[j] == Seen(r.turns, r.attentions[r.attentionOf[q]].value)
  {
    assert Located(r, s, l, q);
    var (k, j) := l.pending[q];
    ChildrenFacts(r.runs, s);
    ChildrenFacts(r.attentions, Some(Children(r.runs, s)[k]));
    assert l.runs[k] == ViewRun(r, Children(r.runs, s)[k]);
  }

  lemma ResolvedView(owner: string -> string, r: Rec, session: string, q: string, v: AttentionCols, s: string, l: Log)
    requires Good(owner, r) && Holds(owner, r, s, l) && owner(q) == session && q in r.attentionOf
             && r.attentionOf[q] < |r.attentions|
    ensures s == session ==> Located(r, s, l, q)
    ensures var id := r.attentionOf[q];
            var r' := r.(attentions := r.attentions[id := r.attentions[id].(value := v)]);
            ViewSession(r', s) ==
            if s == session && q in l.pending && l.pending[q].0 < |l.runs|
              && l.pending[q].1 < |l.runs[l.pending[q].0].attentions|
            then
              var (k, j) := l.pending[q];
              l.runs[k := l.runs[k].(attentions := l.runs[k].attentions[j := Seen(r.turns, v)])]
            else l.runs
  {
    assert Owned(owner, r, q);
    var id := r.attentionOf[q];
    var r' := r.(attentions := r.attentions[id := r.attentions[id].(value := v)]);
    ChildrenFacts(r.runs, s);
    ChildrenFacts(r.attentions, r.attentions[id].parent);
    if r.attentions[id].parent == None {
      forall x | 0 <= x < |r.runs|
        ensures ViewRun(r', x) == ViewRun(r, x)
      {
        AttentionsUpdate(r.turns, r.attentions, id, v, x, 0);
      }
      if s == session {
        assert Located(r, s, l, q);
      }
    } else {
      var run := r.attentions[id].parent.value;
      assert r.runs[run].parent == session;
      forall x | 0 <= x < |r.runs| && x != run
        ensures ViewRun(r', x) == ViewRun(r, x)
      {
        AttentionsUpdate(r.turns, r.attentions, id, v, x, 0);
      }
      if s == session {
        assert Located(r, s, l, q);
        var (k, j) := l.pending[q];
        assert r.attentions[id].parent == Some(Children(r.runs, s)[k]) by {
          ChildrenFacts(r.attentions, Some(Children(r.runs, s)[k]));
        }
        AttentionsUpdate(r.turns, r.attentions, id, v, run, j);
        ViewLocal(r, r', run, s, k);
      } else {
        ViewLocal(r, r', run, s, 0);
      }
    }
  }

  // ---- the representation invariant is kept ----------------------------------

  lemma OwnedStays(owner: string -> string, r: Rec, r': Rec)
    requires Good(owner, r)
    requires |r'.runs| >= |r.runs| && forall x :: 0 <= x < |r.runs| ==> r'.runs[x].parent == r.runs[x].parent
    requires r'.attentions == r.attentions && r'.attentionOf == r.attentionOf
    ensures forall q :: q in r'.attentionOf ==> Owned(owner, r', q)
  {
    forall q | q in r'.attentionOf
      ensures Owned(owner, r', q)
    {
      assert Owned(owner, r, q);
    }
  }

  /** A session's open run looks at the runs, the turns and the two maps only. */
  lemma OpenRunStays(r: Rec, r': Rec, s: string)
    requires s in r.runOf && OpenRun(r, s)
    requires r'.runs == r.runs && r'.turns == r.turns && r'.runOf == r.runOf && r'.turnOf == r.turnOf
    ensures OpenRun(r', s)
  {
  }

  lemma OpenRunAfterStart(r: Rec, session: string, s: string)
    requires forall i :: 0 <= i < |r.turns| ==> r.turns[i].parent < |r.runs|
    requires s != session ==> s in r.runOf && OpenRun(r, s)
    ensures var r' := r.(runs := r.runs + [Row(session, Running)], runOf := r.runOf[session := |r.runs|],
                         turnOf := r.turnOf - {session});
            OpenRun(r', s)
  {
    ChildrenAppend(r.runs, Row(session, Running), s);
    NoChildren(r.turns, |r.runs|);
  }

  lemma RootedAfterStart(r: Rec, r': Rec)
    requires Rooted(r) && |r'.runs| >= |r.runs|
    requires r'.turns == r.turns && r'.decisions == r.decisions && r'.attentions == r.attentions
    ensures Rooted(r')
  {
    forall i | 0 <= i < |r.attentions|
      ensures Known(r', r.attentions[i].value)
    {
      assert Known(r, r.attentions[i].value);
    }
  }

  lemma GoodStart(owner: string -> string, r: Rec, session: string, goal: string)
    requires Good(owner, r)
    ensures Good(owner, Record(r, session, Start(goal)))
  {
    var r' := Record(r, session, Start(goal));
    OwnedStays(owner, r, r');
    RootedAfterStart(r, r');
    forall s | s in r'.runOf
      ensures OpenRun(r', s)
    {
      if s != session { assert OpenRun(r, s); }
      OpenRunAfterStart(r, session, s);
    }
  }

  lemma OpenRunAfterTurn(r: Rec, session: string, row: Row<nat, TurnCols>, s: string)
    requires session in r.runOf && OpenRun(r, session) && row.parent == r.runOf[session]
    requires s in r.runOf && OpenRun(r, s)
    ensures OpenRun(r.(turns := r.turns + [row], turnOf := r.turnOf[session := |r.turns|]), s)
  {
    ChildrenAppend(r.turns, row, r.runOf[s]);
  }

  lemma GoodTurn(owner: string -> string, r: Rec, session: string, e: Event)
    requires Good(owner, r) && e.Turn?
    ensures Good(owner, Record(r, session, e))
  {
    if session in r.runOf {
      GoodAfterTurn(owner, r, session, Row(r.runOf[session], TurnCols(e.n, e.prompt, e.text)));
    }
  }

  lemma GoodAfterTurn(owner: string -> string, r: Rec, session: string, row: Row<nat, TurnCols>)
    requires Good(owner, r) && session in r.runOf && row.parent == r.runOf[session]
    ensures Good(owner, r.(turns := r.turns + [row], turnOf := r.turnOf[session := |r.turns|]))
  {
    var r' := r.(turns := r.turns + [row], turnOf := r.turnOf[session := |r.turns|]);
    OwnedStays(owner, r, r');
    assert OpenRun(r, session);
    RootedAfterTurn(r, r', row);
    forall s | s in r'.runOf
      ensures OpenRun(r', s)
    {
      assert OpenRun(r, s);
      OpenRunAfterTurn(r, session, row, s);
    }
  }

  lemma RootedAfterTurn(r: Rec, r': Rec, row: Row<nat, TurnCols>)
    requires Rooted(r) && row.parent < |r.runs|
    requires r' == r.(turns := r.turns + [row], turnOf := r'.turnOf)
    ensures Rooted(r')
  {
    forall i | 0 <= i < |r.attentions|
      ensures Known(r', r.attentions[i].value)
    {
      assert Known(r, r.attentions[i].value);
    }
  }

  lemma RootedAfterDecision(r: Rec, r': Rec, row: Row<nat, DecisionCols>)
    requires Rooted(r) && row.parent < |r.turns| && r' == r.(decisions := r.decisions + [row])
    ensures Rooted(r')
  {
    forall i | 0 <= i < |r.attentions|
      ensures Known(r', r.attentions[i].value)
    {
      assert Known(r, r.attentions[i].value);
    }
  }

  lemma GoodDecided(owner: string -> string, r: Rec, session: string, e: Event)
    requires Good(owner, r) && e.Decided?
    ensures Good(owner, Record(r, session, e))
  {
    var r' := Record(r, session, e);
    if session in r.turnOf {
      assert OpenRun(r, session);
      OwnedStays(owner, r, r');
      RootedAfterDecision(r, r', Row(r.turnOf[session], Columns(e.decision)));
      forall s | s in r'.runOf
        ensures OpenRun(r', s)
      {
        OpenRunStays(r, r', s);
      }
    }
  }

  lemma RootedAfterAttention(r: Rec, r': Rec)
    requires Rooted(r) && r'.runs == r.runs && r'.turns == r.turns && r'.decisions == r.decisions
    requires forall i :: 0 <= i < |r'.attentions| ==>
               && (r'.attentions[i].parent.Some? ==> r'.attentions[i].parent.value < |r.runs|)
               && Known(r, r'.attentions[i].value)
    ensures Rooted(r')
  {
    forall i | 0 <= i < |r'.attentions|
      ensures Known(r', r'.attentions[i].value)
    {
      assert Known(r, r'.attentions[i].value);
    }
  }

  /** Every request row of the new table has its run and its turn. */
  lemma RequestsKnown(owner: string -> string, r: Rec, session: string, e: Event, i: nat)
    requires Good(owner, r) && (e.Attention? || e.AttentionResolved?) && i < |Record(r, session, e).attentions|
    ensures var row := Record(r, session, e).attentions[i];
            (row.parent.Some? ==> row.parent.value < |r.runs|) && Known(r, row.value)
  {
    if session in r.runOf {
      assert OpenRun(r, session);
    }
    if i < |r.attentions| {
      assert Known(r, r.attentions[i].value);
    }
  }

  lemma GoodAttention(owner: string -> string, r: Rec, session: string, e: Event)
    requires Good(owner, r) && Tagged(owner, session, e) && (e.Attention? || e.AttentionResolved?)
    ensures Good(owner, Record(r, session, e))
  {
    var r' := Record(r, session, e);
    forall i | 0 <= i < |r'.attentions|
      ensures (r'.attentions[i].parent.Some? ==> r'.attentions[i].parent.value < |r.runs|)
              && Known(r, r'.attentions[i].value)
    {
      RequestsKnown(owner, r, session, e, i);
    }
    RootedAfterAttention(r, r');
    forall s | s in r'.runOf
      ensures OpenRun(r', s)
    {
      OpenRunStays(r, r', s);
    }
    forall q | q in r'.attentionOf
      ensures Owned(owner, r', q)
    {
      OwnedAfterAttention(owner, r, session, e, q);
    }
  }

  lemma OwnedAfterAttention(owner: string -> string, r: Rec, session: string, e: Event, q: string)
    requires Good(owner, r) && Tagged(owner, session, e) && (e.Attention? || e.AttentionResolved?)
    requires q in Record(r, session, e).attentionOf
    ensures Owned(owner, Record(r, session, e), q)
  {
    if session in r.runOf {
      assert OpenRun(r, session);
    }
    if q != e.request.id {
      assert Owned(owner, r, q);
    }
  }

  lemma OpenRunAfterEnd(r: Rec, session: string, end: RunEnd, s: string)
    requires session in r.runOf && OpenRun(r, session) && s in r.runOf && OpenRun(r, s) && s != session
    ensures s in EndRun(r, session, end).runOf && OpenRun(EndRun(r, session, end), s)
  {
    ChildrenUpdate(r.runs, r.runOf[session], end, s);
  }

  lemma GoodEnd(owner: string -> string, r: Rec, session: string, end: RunEnd)
    requires Good(owner, r)
    ensures Good(owner, EndRun(r, session, end))
  {
    var r' := EndRun(r, session, end);
    if session in r.runOf {
      assert OpenRun(r, session);
      OwnedStays(owner, r, r');
      RootedAfterStart(r, r');
      forall s | s in r'.runOf
        ensures OpenRun(r', s)
      {
        assert OpenRun(r, s);
        OpenRunAfterEnd(r, session, end, s);
      }
    }
  }

  lemma GoodKept(owner: string -> string, r: Rec, session: string, e: Event)
    requires Good(owner, r) && Tagged(owner, session, e)
    ensures Good(owner, Record(r, session, e))
  {
    match e {
      case Start(goal) => GoodStart(owner, r, session, goal);
      case Turn(_, _, _) => GoodTurn(owner, r, session, e);
      case Decided(_, _) => GoodDecided(owner, r, session, e);
      case Attention(_, _) => GoodAttention(owner, r, session, e);
      case AttentionResolved(_, _) => GoodAttention(owner, r, session, e);
      case Stop(why, turns) => GoodEnd(owner, r, session, EndedAs(why, turns));
      case Error(message) => GoodEnd(owner, r, session, ErroredAs(message));
      case _ =>
    }
  }

  /** One event steps its own session's log and leaves every other log alone. */
  lemma OneEvent(owner: string -> string, r: Rec, session: string, e: Event, s: string, l: Log)
    requires Good(owner, r) && Tagged(owner, session, e) && Holds(owner, r, s, l)
    ensures Carries(owner, r, session, e, s, l)
  {
    match e {
      case Start(goal) => CarriesStart(owner, r, session, goal, s, l);
      case Turn(n, prompt, text) => CarriesTurn(owner, r, session, n, prompt, text, s, l);
      case Decided(n, d) => CarriesDecided(owner, r, session, n, d, s, l);
      case Attention(n, q) => CarriesAttention(owner, r, session, n, q, s, l);
      case AttentionResolved(q, x) => CarriesResolved(owner, r, session, q, x, s, l);
      case Stop(why, turns) => CarriesEnd(owner, r, session, EndedAs(why, turns), s, l);
      case Error(message) => CarriesEnd(owner, r, session, ErroredAs(message), s, l);
      case _ =>
    }
  }

  ghost predicate AllTagged(owner: string -> string, stream: seq<(string, Event)>) {
    forall i :: 0 <= i < |stream| ==> Tagged(owner, stream[i].0, stream[i].1)
  }

  lemma {:induction false} StreamHolds(owner: string -> string, stream: seq<(string, Event)>, s: string)
    requires AllTagged(owner, stream)
    ensures Good(owner, RecordAll(EMPTY, stream))
    ensures Holds(owner, RecordAll(EMPTY, stream), s, Steps(NO_LOG, Project(stream, s)))
  {
    if stream != [] {
      var n := |stream| - 1;
      var before := RecordAll(EMPTY, stream[..n]);
      var l := Steps(NO_LOG, Project(stream[..n], s));
      var (session, e) := stream[n];
      StreamHolds(owner, stream[..n], s);
      assert Tagged(owner, stream[n].0, stream[n].1);
      GoodKept(owner, before, session, e);
      OneEvent(owner, before, session, e, s, l);
      if s == session {
        assert (Project(stream[..n], s) + [e])[..|Project(stream[..n], s)|] == Project(stream[..n], s);
      } else {
        assert Project(stream, s) == Project(stream[..n], s);
      }
    }
  }

  // ---- the theorems ----------------------------------------------------------

  /** A session's stored rows are a function of its own events. */
  lemma RowsAreOwnHistory(owner: string -> string, stream: seq<(string, Event)>, s: string)
    requires AllTagged(owner, stream)
    ensures ViewSession(RecordAll(EMPTY, stream), s) == Steps(NO_LOG, Project(stream, s)).runs
  {
    StreamHolds(owner, stream, s);
  }

  function Tag(session: string, events: seq<Event>): seq<(string, Event)> {
    seq(|events|, i requires 0 <= i < |events| => (session, events[i]))
  }

  lemma {:induction false} ProjectTag(session: string, events: seq<Event>)
    ensures Project(Tag(session, events), session) == events
  {
    if events != [] {
      var n := |events| - 1;
      ProjectTag(session, events[..n]);
      assert Tag(session, events)[..n] == Tag(session, events[..n]);
    }
  }

  lemma {:induction false} ProjectTagged(owner: string -> string, stream: seq<(string, Event)>, s: string)
    requires AllTagged(owner, stream)
    ensures AllTagged(owner, Tag(s, Project(stream, s)))
  {
    if stream != [] {
      var n := |stream| - 1;
      ProjectTagged(owner, stream[..n], s);
      assert Tagged(owner, stream[n].0, stream[n].1);
      var before, after := Tag(s, Project(stream[..n], s)), Tag(s, Project(stream, s));
      forall i | 0 <= i < |after|
        ensures Tagged(owner, after[i].0, after[i].1)
      {
        if i < |before| {
          assert after[i] == before[i];
        }
      }
    }
  }

  /** Non-interference: whatever else is recorded in between, a session's rows are, up to row ids,
      those of recording its own events alone. */
  lemma SessionsDoNotInterfere(owner: string -> string, stream: seq<(string, Event)>, s: string)
    requires AllTagged(owner, stream)
    ensures ViewSession(RecordAll(EMPTY, stream), s) == ViewSession(RecordAll(EMPTY, Tag(s, Project(stream, s))), s)
  {
    RowsAreOwnHistory(owner, stream, s);
    ProjectTagged(owner, stream, s);
    RowsAreOwnHistory(owner, Tag(s, Project(stream, s)), s);
    ProjectTag(s, Project(stream, s));
  }

  /** A run row is written to at most once after it is opened: an event changes the end of a row only
      from running, and only the row of the session it belongs to. */
  lemma EndedRowsAreFinal(owner: string -> string, stream: seq<(string, Event)>, session: string, e: Event, run: nat)
    requires AllTagged(owner, stream) && Tagged(owner, session, e)
    requires run < |RecordAll(EMPTY, stream).runs|
    ensures var r := RecordAll(EMPTY, stream);
            var r' := Record(r, session, e);
            && run < |r'.runs| && r'.runs[run].parent == r.runs[run].parent
            && (r'.runs[run] != r.runs[run] ==>
                r.runs[run] == Row(session, Running) && r'.runs[run].value != Running && IsEnd(e))
  {
    StreamHolds(owner, stream, session);
    EndedRowIsFinal(owner, RecordAll(EMPTY, stream), session, e, run);
  }

  lemma EndedRowIsFinal(owner: string -> string, r: Rec, session: string, e: Event, run: nat)
    requires Good(owner, r) && run < |r.runs|
    ensures var r' := Record(r, session, e);
            && run < |r'.runs| && r'.runs[run].parent == r.runs[run].parent
            && (r'.runs[run] != r.runs[run] ==>
                r.runs[run] == Row(session, Running) && r'.runs[run].value != Running && IsEnd(e))
  {
    match e {
      case Stop(why, turns) => EndChangesOwnRow(owner, r, session, EndedAs(why, turns), run);
      case Error(message) => EndChangesOwnRow(owner, r, session, ErroredAs(message), run);
      case _ =>
    }
  }

  lemma EndChangesOwnRow(owner: string -> string, r: Rec, session: string, end: RunEnd, run: nat)
    requires Good(owner, r) && run < |r.runs| && end != Running
    ensures var r' := EndRun(r, session, end);
            && run < |r'.runs| && r'.runs[run].parent == r.runs[run].parent
            && (r'.runs[run] != r.runs[run] ==> r.runs[run] == Row(session, Running) && r'.runs[run].value != Running)
  {
    if session in r.runOf {
      assert OpenRun(r, session);
    }
  }

  /** A decision row is written if and only if the session has an open run with a turn, and then it hangs on the
      newest turn of that run. */
  lemma DecisionHangsOnLatestTurn(owner: string -> string, stream: seq<(string, Event)>, session: string, n: nat,
                                  d: Decision)
    requires AllTagged(owner, stream)
    ensures var r := RecordAll(EMPTY, stream);
            var r' := Record(r, session, Decided(n, d));
            if session !in r.runOf || Children(r.turns, r.runOf[session]) == [] then r' == r
            else
              && r.runOf[session] < |r.runs| && r.runs[r.runOf[session]] == Row(session, Running)
              && r' == r.(decisions :=
                   r.decisions + [Row(Last(Children(r.turns, r.runOf[session])), Columns(d))])
  {
    StreamHolds(owner, stream, session);
    DecisionHangs(owner, RecordAll(EMPTY, stream), session, n, d);
  }

  lemma DecisionHangs(owner: string -> string, r: Rec, session: string, n: nat, d: Decision)
    requires Good(owner, r)
    ensures var r' := Record(r, session, Decided(n, d));
            if session !in r.runOf || Children(r.turns, r.runOf[session]) == [] then r' == r
            else
              && r.runOf[session] < |r.runs| && r.runs[r.runOf[session]] == Row(session, Running)
              && r' == r.(decisions :=
                   r.decisions + [Row(Last(Children(r.turns, r.runOf[session])), Columns(d))])
  {
    if session in r.runOf {
      assert OpenRun(r, session);
    }
  }
}
