/** From the run loop through the recorder to the miner. */
module EndToEnd {
  import opened Text
  import opened RunModel
  import opened Recovery
  import opened Orchestrator
  import opened TraceShape
  import opened Recorder
  import opened RecorderFacts
  import opened RunRows
  import opened ExampleBank
  import opened LiveSignals

  // ---- the run recorded last -------------------------------------------------

  /** The run whose trace is the last thing recorded for session `session`. */
  ghost predicate RecordedLast(owner: string -> string, stream: seq<(string, Event)>, session: string,
                               history: seq<Event>, s: Setup, w: World) {
    AllTagged(owner, stream) && Project(stream, session) == history + SessionRun(s, w).run.core.trace
  }

  /** Every run can be what was last recorded for its session. */
  lemma EveryRunCanBeRecorded(session: string, s: Setup, w: World)
    ensures RecordedLast(_ => session, Tag(session, SessionRun(s, w).run.core.trace), session, [], s, w)
  {
    ProjectTag(session, SessionRun(s, w).run.core.trace);
  }

  /** Its rows are its turns with all their decisions, and the row is closed as the run ended. */
  lemma RowsOfARecordedRun(owner: string -> string, stream: seq<(string, Event)>, session: string,
                           history: seq<Event>, s: Setup, w: World)
    requires RecordedLast(owner, stream, session, history, s, w)
    ensures var rows := ViewSession(RecordAll(EMPTY, stream), session);
            var trace := SessionRun(s, w).run.core.trace;
            && rows != []
            && Last(rows).turns == TurnRows(trace) && Last(rows).end == EndOfTrace(trace)
            && (SessionRun(s, w).Over? <==> Last(rows).end != Running)
  {
    var trace := SessionRun(s, w).run.core.trace;
    RunIsOneRun(s, w);
    RowsAreOwnHistory(owner, stream, session);
    StepsAppend(NO_LOG, history, trace);
    RecordedRun(Steps(NO_LOG, history), trace);
  }

  // ---- what the miner looks up -----------------------------------------------

  ghost predicate Numbered(turns: seq<TurnView>) {
    forall i :: 0 <= i < |turns| ==> turns[i].cols.n == i + 1
  }

  lemma {:induction false} LastOfBoth(a: seq<(nat, DecisionCols)>, b: seq<(nat, DecisionCols)>, n: int)
    ensures LastDecision(a + b, n) == if LastDecision(b, n).Some? then LastDecision(b, n) else LastDecision(a, n)
  {
    if b == [] {
      assert a + b == a;
    } else {
      var m := |b| - 1;
      assert (a + b)[..|a + b| - 1] == a + b[..m];
      LastOfBoth(a, b[..m], n);
    }
  }

  lemma {:induction false} LastOfOne(k: nat, ds: seq<DecisionCols>, n: int)
    ensures LastDecision(Keyed(k, ds), n) == if n == k && ds != [] then Some(ds[|ds| - 1]) else None
  {
    if ds != [] {
      var m := |ds| - 1;
      assert Keyed(k, ds)[..m] == Keyed(k, ds[..m]);
      LastOfOne(k, ds[..m], n);
    }
  }

  function Keyed(k: nat, ds: seq<DecisionCols>): seq<(nat, DecisionCols)> {
    seq(|ds|, i requires 0 <= i < |ds| => (k, ds[i]))
  }

  /** The decision found for a turn number is the last one stored for that turn. */
  lemma {:induction false} DecisionFound(turns: seq<TurnView>, n: int)
    requires Numbered(turns)
    ensures LastDecision(DecisionsByTurn(turns), n) ==
            if 1 <= n <= |turns| && turns[n - 1].decisions != [] then Some(Last(turns[n - 1].decisions)) else None
  {
    if turns != [] {
      var m := |turns| - 1;
      DecisionFound(turns[..m], n);
      LastTurnDecides(turns, n);
    }
  }

  lemma LastTurnDecides(turns: seq<TurnView>, n: int)
    requires turns != []
    ensures var m := |turns| - 1;
            LastDecision(DecisionsByTurn(turns), n) ==
            if n == turns[m].cols.n && turns[m].decisions != [] then Some(Last(turns[m].decisions))
            else LastDecision(DecisionsByTurn(turns[..m]), n)
  {
    var m := |turns| - 1;
    var k, ds := turns[m].cols.n, turns[m].decisions;
    LastOfOne(k, ds, n);
    LastOfBoth(DecisionsByTurn(turns[..m]), Keyed(k, ds), n);
    assert DecisionsByTurn(turns) == DecisionsByTurn(turns[..m]) + Keyed(k, ds);
  }

  lemma {:induction false} TurnFound(turns: seq<TurnView>, n: int)
    requires Numbered(turns)
    ensures LastTurn(turns, n) == if 1 <= n <= |turns| then Some(turns[n - 1].cols) else None
  {
    if turns != [] {
      TurnFound(turns[..|turns| - 1], n);
    }
  }

  // ---- exactly when a correction is mined ------------------------------------

  /** The brain's last word after turn `n` was to continue. */
  predicate ContinuedAfter(trace: seq<Event>, n: nat) {
    var ds := DecisionsAfter(trace, n);
    ds != [] && ds[|ds| - 1].Continue?
  }

  /** Turn `i + 1` of the run was re-injected after a `continue`, and the wrapped wording does not pass for
      the prompt. */
  predicate LooksOverridden(r: Run, i: nat)
    requires i < |r.ran| && |TurnsOf(r.core.trace)| == |r.ran|
  {
    TurnsOfAreTurns(r.core.trace);
    var sourced := r.ran[i].sourced;
    && i >= 1
    && r.ran[i].reported != sourced
    && ContinuedAfter(r.core.trace, i)
    && Trim(sourced) != "" && Trim(TurnsOf(r.core.trace)[i - 1].text) != ""
    && !SameInstruction(Reinjection(sourced), sourced)
  }

  lemma {:induction false} LastAfterIsEvent(trace: seq<Event>, n: nat)
    requires DecisionsAfter(trace, n) != []
    ensures exists j :: 0 <= j < |trace| && trace[j].Decided? && |TurnsOf(trace[..j])| == n
                     && trace[j].decision == Last(DecisionsAfter(trace, n))
  {
    var m := |trace| - 1;
    if trace[m].Decided? && |TurnsOf(trace[..m])| == n {
      assert trace[m].decision == Last(DecisionsAfter(trace, n));
    } else {
      LastAfterIsEvent(trace[..m], n);
      var j :| 0 <= j < m && trace[..m][j].Decided? && |TurnsOf(trace[..m][..j])| == n
               && trace[..m][j].decision == Last(DecisionsAfter(trace[..m], n));
      assert trace[..m][..j] == trace[..j] && trace[j] == trace[..m][j];
    }
  }

  /** A `continue` after turn `i` carries the very prompt turn `i + 1` was sourced from. */
  lemma ContinueIsTheSourcedPrompt(r: Run, i: nat)
    requires TurnsMatch(r) && DecisionsFollowed(r) && i < |r.ran| && ContinuedAfter(r.core.trace, i)
    ensures Last(DecisionsAfter(r.core.trace, i)).prompt == r.ran[i].sourced
  {
    var trace := r.core.trace;
    LastAfterIsEvent(trace, i);
    var j :| 0 <= j < |trace| && trace[j].Decided? && |TurnsOf(trace[..j])| == i
             && trace[j].decision == Last(DecisionsAfter(trace, i));
    assert Followed(r, j);
  }

  /** The row of turn `i + 1`. */
  lemma RowAt(r: Run, i: nat)
    requires TurnsMatch(r) && i < |r.ran|
    ensures |TurnRows(r.core.trace)| == |r.ran|
    ensures var row, e := TurnRows(r.core.trace)[i], TurnsOf(r.core.trace)[i];
            && row.cols == TurnCols(i + 1, r.ran[i].reported, e.text)
            && row.decisions == ColumnsOf(DecisionsAfter(r.core.trace, i + 1))
  {
  }

  lemma RowsAreNumbered(r: Run)
    requires TurnsMatch(r)
    ensures |TurnRows(r.core.trace)| == |r.ran| && Numbered(TurnRows(r.core.trace))
  {
    forall i | 0 <= i < |r.ran|
      ensures |TurnRows(r.core.trace)| == |r.ran| && TurnRows(r.core.trace)[i].cols.n == i + 1
    {
      RowAt(r, i);
    }
  }

  /** What the miner finds as the reply before turn `i + 1`. */
  lemma ReplyLookup(r: Run, i: nat)
    requires TurnsMatch(r) && 1 <= i < |r.ran|
    ensures LastTurn(TurnRows(r.core.trace), i)
            == Some(TurnCols(i, r.ran[i - 1].reported, TurnsOf(r.core.trace)[i - 1].text))
  {
    RowsAreNumbered(r);
    RowAt(r, i - 1);
    TurnFound(TurnRows(r.core.trace), i);
  }

  lemma DecisionOfRow(turns: seq<TurnView>, n: int, ds: seq<Decision>)
    requires Numbered(turns) && 1 <= n <= |turns| && turns[n - 1].decisions == ColumnsOf(ds)
    ensures LastDecision(DecisionsByTurn(turns), n) == if ds == [] then None else Some(Columns(Last(ds)))
  {
    DecisionFound(turns, n);
  }

  lemma FoundDecision(r: Run, i: nat)
    requires TurnsMatch(r) && 1 <= i < |r.ran|
    ensures var ds := DecisionsAfter(r.core.trace, i);
            LastDecision(DecisionsByTurn(TurnRows(r.core.trace)), i) == if ds == [] then None
              else Some(Columns(Last(ds)))
  {
    RowsAreNumbered(r);
    RowAt(r, i - 1);
    DecisionOfRow(TurnRows(r.core.trace), i, DecisionsAfter(r.core.trace, i));
  }

  /** What the miner finds as the decision before turn `i + 1`. */
  lemma DecisionLookup(r: Run, i: nat)
    requires TurnsMatch(r) && DecisionsFollowed(r) && 1 <= i < |r.ran|
    ensures var found := LastDecision(DecisionsByTurn(TurnRows(r.core.trace)), i);
            if ContinuedAfter(r.core.trace, i) then
              found.Some? && found.value.action == ToContinue && found.value.prompt == Some(r.ran[i].sourced)
            else
              found == None || found.value.action != ToContinue
  {
    FoundDecision(r, i);
    if ContinuedAfter(r.core.trace, i) {
      ContinueIsTheSourcedPrompt(r, i);
    }
  }

  lemma SaidTwiceIsTheSame(p: string)
    requires Trim(p) != ""
    ensures SameInstruction(p, p)
  {
    NormalizeKeepsInk(p);
  }

  lemma WrapperIsNotBlank(p: string)
    requires Reinjection(p) != p
    ensures Trim(Reinjection(p)) != ""
  {
    TrimIsBlankTest(Reinjection(p));
    assert Reinjection(p)[0] == INTERRUPTED[0] == 'Y';
    assert !IsSpace(Reinjection(p)[0]);
  }

  /** The miner takes a turn of a run for an override exactly when it looks overridden. */
  lemma OverrideIff(r: Run, hash: Hasher, when: int, i: nat)
    requires TurnsMatch(r) && DecisionsFollowed(r) && i < |r.ran| && ReportedFairly(r.ran[i])
    ensures |TurnRows(r.core.trace)| == |r.ran|
    ensures Override(TurnRows(r.core.trace), hash, when, TurnRows(r.core.trace)[i].cols) != None <==>
            LooksOverridden(r, i)
  {
    var turns := TurnRows(r.core.trace);
    RowAt(r, i);
    if i >= 1 {
      ReplyLookup(r, i);
      DecisionLookup(r, i);
      var found, previous := LastDecision(DecisionsByTurn(turns), i), LastTurn(turns, i);
      MinerOnTurn(turns, hash, when, turns[i].cols, found, previous, r.ran[i].sourced);
      if r.ran[i].reported == r.ran[i].sourced {
        if Trim(r.ran[i].sourced) != "" { SaidTwiceIsTheSame(r.ran[i].sourced); }
      } else {
        WrapperIsNotBlank(r.ran[i].sourced);
      }
    }
  }

  /** What the miner makes of a turn, given what it found for the turn before. */
  lemma MinerOnTurn(turns: seq<TurnView>, hash: Hasher, when: int, cols: TurnCols,
                    found: Option<DecisionCols>, previous: Option<TurnCols>, sourced: string)
    requires cols.n >= 2 && previous.Some?
    requires found == LastDecision(DecisionsByTurn(turns), cols.n - 1) && previous == LastTurn(turns, cols.n - 1)
    requires found.Some? && found.value.action == ToContinue ==> found.value.prompt == Some(sourced)
    ensures Override(turns, hash, when, cols) != None <==>
            && found.Some? && found.value.action == ToContinue && Trim(sourced) != "" && Trim(cols.prompt) != ""
            && !SameInstruction(cols.prompt, sourced) && Trim(previous.value.text) != ""
  {
  }

  /** For every run, under any interleaving with other sessions: its rows yield a correction if and only if some turn
      after the first was re-injected after a `continue` whose prompt, like the reply before it, is not blank and does
      not pass for the same instruction as its wrapper. */
  lemma CorrectionsIff(owner: string -> string, stream: seq<(string, Event)>, session: string, history: seq<Event>,
                       s: Setup, w: World, hash: Hasher, when: int)
    requires RecordedLast(owner, stream, session, history, s, w)
    ensures |TurnsOf(SessionRun(s, w).run.core.trace)| == |SessionRun(s, w).run.ran|
    ensures var rows, run := ViewSession(RecordAll(EMPTY, stream), session), SessionRun(s, w).run;
            && rows != []
            && (Corrections(Last(rows).turns, hash, when) != [] <==>
                exists i :: 0 <= i < |run.ran| && LooksOverridden(run, i))
  {
    var run := SessionRun(s, w).run;
    EveryRunIsWellFormed(s, w);
    RowsOfARecordedRun(owner, stream, session, history, s, w);
    CorrectionsOfRun(run, hash, when);
  }

  lemma CorrectionsOfRun(r: Run, hash: Hasher, when: int)
    requires TurnsMatch(r) && DecisionsFollowed(r) && forall i :: 0 <= i < |r.ran| ==> ReportedFairly(r.ran[i])
    ensures Corrections(TurnRows(r.core.trace), hash, when) != [] <==>
            exists i :: 0 <= i < |r.ran| && LooksOverridden(r, i)
  {
    var turns := TurnRows(r.core.trace);
    EmptyIffNoOverride(turns, hash, when);
    forall i | 0 <= i < |r.ran|
      ensures |turns| == |r.ran| && (Override(turns, hash, when, turns[i].cols) != None <==> LooksOverridden(r, i))
    {
      OverrideIff(r, hash, when, i);
    }
  }

  /** In particular, if no turn of the run was re-injected under another wording, nothing is derived from it. */
  lemma NoSpuriousCorrections(owner: string -> string, stream: seq<(string, Event)>, session: string,
                              history: seq<Event>, s: Setup, w: World, hash: Hasher, when: int)
    requires RecordedLast(owner, stream, session, history, s, w)
    requires forall x :: x in SessionRun(s, w).run.ran ==> x.reported == x.sourced
    ensures var rows := ViewSession(RecordAll(EMPTY, stream), session);
            rows != [] && Corrections(Last(rows).turns, hash, when) == []
  {
    CorrectionsIff(owner, stream, session, history, s, w, hash, when);
    var run := SessionRun(s, w).run;
    forall i | 0 <= i < |run.ran|
      ensures !LooksOverridden(run, i)
    {
      assert run.ran[i] in run.ran;
    }
  }

  /** ... and whatever is derived is the reconcile wrapper around a prompt the recovery ladder re-injected. */
  lemma CorrectionsAreReinjections(owner: string -> string, stream: seq<(string, Event)>, session: string,
                                   history: seq<Event>, s: Setup, w: World, hash: Hasher, when: int, x: Item)
    requires RecordedLast(owner, stream, session, history, s, w)
    requires var rows := ViewSession(RecordAll(EMPTY, stream), session);
             rows != [] && x in Corrections(Last(rows).turns, hash, when)
    ensures exists y :: y in SessionRun(s, w).run.ran && y.reported == Reinjection(y.sourced) != y.sourced
                     && x.instruction == Truncate(y.reported, 300)
  {
    var run := SessionRun(s, w).run;
    EveryRunIsWellFormed(s, w);
    RowsOfARecordedRun(owner, stream, session, history, s, w);
    var turns := TurnRows(run.core.trace);
    var found := Overrides(turns, hash, when);
    DedupItems(found, x);
    var i :| 0 <= i < |found| && found[i] == Some(x);
    assert |turns| == |run.ran|;
    OverrideIff(run, hash, when, i);
    RowAt(run, i);
    assert ReportedFairly(run.ran[i]);
    assert run.ran[i] in run.ran;
  }
}
