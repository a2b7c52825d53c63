/** What recording whole runs leaves in a session's rows. */
module RunRows {
  import opened Text
  import opened RunModel
  import opened Orchestrator
  import opened TraceShape
  import opened Recorder
  import opened RecorderFacts

  lemma {:induction false} StepsAppend(l: Log, a: seq<Event>, b: seq<Event>)
    ensures Steps(l, a + b) == Steps(Steps(l, a), b)
  {
    if b == [] {
      assert a + b == a;
    } else {
      StepsAppend(l, a, b[..|b| - 1]);
      assert (a + b)[..|a + b| - 1] == a + b[..|b| - 1];
    }
  }

  /** Starts first and only once; ends, if at all, only last. */
  ghost predicate OneRun(trace: seq<Event>) {
    && trace != [] && trace[0].Start?
    && (forall i :: 0 < i < |trace| ==> !trace[i].Start?)
    && (forall i :: 0 <= i < |trace| - 1 ==> !IsEnd(trace[i]))
  }

  lemma RunIsOneRun(s: Setup, w: World)
    ensures OneRun(SessionRun(s, w).run.core.trace)
    ensures IsEnd(Last(SessionRun(s, w).run.core.trace)) <==> SessionRun(s, w).Over?
  {
    var trace := SessionRun(s, w).run.core.trace;
    EveryRunIsWellFormed(s, w);
    forall i | 0 <= i < |trace|
      ensures (trace[i].Start? <==> i == 0) && (IsEnd(trace[i]) <==> SessionRun(s, w).Over? && i == |trace| - 1)
    {
      StartFirstEndLast(s, w, i);
    }
  }

  // ---- the rows a trace stands for -------------------------------------------

  function ColsOf(e: Event): TurnCols
    requires e.Turn?
  {
    TurnCols(e.n, e.prompt, e.text)
  }

  /** The decisions made after turn `n` and before the next one. */
  function DecisionsAfter(trace: seq<Event>, n: nat): seq<Decision> {
    if trace == [] then []
    else
      var before, e := trace[..|trace| - 1], trace[|trace| - 1];
      DecisionsAfter(before, n) + if e.Decided? && |TurnsOf(before)| == n then [e.decision] else []
  }

  function ColumnsOf(ds: seq<Decision>): seq<DecisionCols> {
    seq(|ds|, i requires 0 <= i < |ds| => Columns(ds[i]))
  }

  /** One row for each turn event, with the rows of all decisions made after it and no others. */
  function TurnRows(trace: seq<Event>): seq<TurnView> {
    TurnsOfAreTurns(trace);
    var events := TurnsOf(trace);
    seq(|events|, i requires 0 <= i < |events| => TurnView(ColsOf(events[i]), ColumnsOf(DecisionsAfter(trace, i + 1))))
  }

  lemma {:induction false} TurnsOfAreTurns(trace: seq<Event>)
    ensures forall i :: 0 <= i < |TurnsOf(trace)| ==> TurnsOf(trace)[i].Turn?
  {
    if trace != [] {
      TurnsOfAreTurns(trace[..|trace| - 1]);
    }
  }

  lemma {:induction false} NoDecisionsBeyond(trace: seq<Event>, n: nat)
    requires n > |TurnsOf(trace)|
    ensures DecisionsAfter(trace, n) == []
  {
    if trace != [] {
      NoDecisionsBeyond(trace[..|trace| - 1], n);
    }
  }

  lemma DecisionsSnoc(trace: seq<Event>, e: Event, n: nat)
    ensures DecisionsAfter(trace + [e], n) ==
            DecisionsAfter(trace, n) + if e.Decided? && |TurnsOf(trace)| == n then [e.decision] else []
  {
    assert (trace + [e])[..|trace|] == trace;
  }

  lemma TurnsSnoc(trace: seq<Event>, e: Event)
    ensures TurnsOf(trace + [e]) == TurnsOf(trace) + if e.Turn? then [e] else []
  {
    assert (trace + [e])[..|trace|] == trace;
  }

  /** Only a decision changes a row that is there, and only the last one. */
  lemma OtherRowsStay(trace: seq<Event>, e: Event, i: nat)
    requires i < |TurnRows(trace)| && !(e.Decided? && i == |TurnRows(trace)| - 1)
    ensures |TurnRows(trace + [e])| == |TurnRows(trace)| + (if e.Turn? then 1 else 0)
    ensures TurnRows(trace + [e])[i] == TurnRows(trace)[i]
  {
    TurnsSnoc(trace, e);
    DecisionsSnoc(trace, e, i + 1);
  }

  lemma DecidedRow(trace: seq<Event>, e: Event)
    requires e.Decided? && TurnRows(trace) != []
    ensures var rows, more := TurnRows(trace), TurnRows(trace + [e]);
            |more| == |rows| && Last(more) == Last(rows).(decisions := Last(rows).decisions + [Columns(e.decision)])
  {
    var n := |TurnRows(trace)|;
    TurnsSnoc(trace, e);
    DecisionsSnoc(trace, e, n);
    ColumnsSnoc(DecisionsAfter(trace, n), e.decision);
    assert TurnsOf(trace + [e]) == TurnsOf(trace);
    assert TurnRows(trace + [e])[n - 1]
           == TurnView(TurnRows(trace)[n - 1].cols, ColumnsOf(DecisionsAfter(trace + [e], n)));
    assert TurnRows(trace)[n - 1].decisions == ColumnsOf(DecisionsAfter(trace, n));
  }

  lemma NewRow(trace: seq<Event>, e: Event)
    requires e.Turn?
    ensures |TurnRows(trace + [e])| == |TurnRows(trace)| + 1
    ensures Last(TurnRows(trace + [e])) == TurnView(ColsOf(e), [])
  {
    var n := |TurnRows(trace)|;
    TurnsSnoc(trace, e);
    DecisionsSnoc(trace, e, n + 1);
    NoDecisionsBeyond(trace, n + 1);
    assert DecisionsAfter(trace + [e], n + 1) == [];
  }

  lemma TurnRow(trace: seq<Event>, e: Event)
    requires e.Turn?
    ensures TurnRows(trace + [e]) == TurnRows(trace) + [TurnView(ColsOf(e), [])]
  {
    var rows, more := TurnRows(trace), TurnRows(trace + [e]);
    NewRow(trace, e);
    forall i | 0 <= i < |rows|
      ensures more[i] == rows[i]
    {
      OtherRowsStay(trace, e, i);
    }
  }

  /** What one more event adds to the rows. */
  lemma TurnRowsSnoc(trace: seq<Event>, e: Event)
    ensures var rows, more := TurnRows(trace), TurnRows(trace + [e]);
            if e.Turn? then more == rows + [TurnView(ColsOf(e), [])]
            else if e.Decided? && rows != [] then
              more == SetLast(rows, Last(rows).(decisions := Last(rows).decisions + [Columns(e.decision)]))
            else more == rows
  {
    var rows, more := TurnRows(trace), TurnRows(trace + [e]);
    TurnsSnoc(trace, e);
    if e.Turn? {
      TurnRow(trace, e);
    } else {
      forall i | 0 <= i < |rows| && !(e.Decided? && i == |rows| - 1)
        ensures |more| == |rows| && more[i] == rows[i]
      {
        OtherRowsStay(trace, e, i);
      }
      if e.Decided? && rows != [] {
        DecidedRow(trace, e);
        OnlyLastDiffers(rows, more);
      }
    }
  }

  lemma ColumnsSnoc(ds: seq<Decision>, d: Decision)
    ensures ColumnsOf(ds + [d]) == ColumnsOf(ds) + [Columns(d)]
  {
  }

  // ---- recording one run -----------------------------------------------------

  function EndOf(e: Event): RunEnd {
    match e
    case Stop(why, turns) => EndedAs(why, turns)
    case Error(message) => ErroredAs(message)
    case _ => Running
  }

  /** How a run whose events so far are `trace` ended, if it did. */
  function EndOfTrace(trace: seq<Event>): RunEnd {
    if trace == [] then Running else EndOf(trace[|trace| - 1])
  }

  /** An inner event changes the open run as it changes the trace, and leaves it open. */
  lemma StepAsTrace(l: Log, e: Event, before: seq<Event>)
    requires l.runs != [] && l.open && Last(l.runs).turns == TurnRows(before) && !e.Start? && !IsEnd(e)
    ensures var l' := Step(l, e);
            && |l'.runs| == |l.runs| && l'.open
            && Last(l'.runs).turns == TurnRows(before + [e]) && Last(l'.runs).end == Last(l.runs).end
  {
    TurnRowsSnoc(before, e);
    if e.AttentionResolved? {
      ResolvingKeepsTurns(l, e);
    }
  }

  lemma ResolvingKeepsTurns(l: Log, e: Event)
    requires e.AttentionResolved?
    ensures |Step(l, e).runs| == |l.runs| && Step(l, e).open == l.open
    ensures forall k :: 0 <= k < |l.runs| ==>
              Step(l, e).runs[k].turns == l.runs[k].turns && Step(l, e).runs[k].end == l.runs[k].end
  {
    var q := e.request.id;
    if q in l.pending {
      var (k, j) := l.pending[q];
    }
  }

  /** A run under way: one more row, open and running, with the rows of its trace so far. */
  lemma {:induction false} RecordingARun(l0: Log, trace: seq<Event>, k: nat)
    requires OneRun(trace) && 1 <= k <= |trace|
    requires forall i :: 0 <= i < k ==> !IsEnd(trace[i])
    ensures var l := Steps(l0, trace[..k]);
            && |l.runs| == |l0.runs| + 1 && l.open
            && Last(l.runs).turns == TurnRows(trace[..k]) && Last(l.runs).end == Running
  {
    assert trace[..k] == trace[..k - 1] + [trace[k - 1]];
    assert trace[..k][..k - 1] == trace[..k - 1];
    if k == 1 {
      assert trace[..0] == [];
      TurnRowsSnoc([], trace[0]);
    } else {
      RecordingARun(l0, trace, k - 1);
      StepAsTrace(Steps(l0, trace[..k - 1]), trace[k - 1], trace[..k - 1]);
    }
  }

  /** The end event closes the row and leaves its turns alone. */
  lemma StepAtEnd(l: Log, e: Event, before: seq<Event>)
    requires l.runs != [] && l.open && Last(l.runs).turns == TurnRows(before) && IsEnd(e)
    ensures var l' := Step(l, e);
            && |l'.runs| == |l.runs| && !l'.open
            && Last(l'.runs).turns == TurnRows(before + [e]) && Last(l'.runs).end == EndOf(e)
  {
    TurnRowsSnoc(before, e);
  }

  /** The run's row as the recorder leaves it: its turns and decisions are the trace's, its end is the end event's. */
  lemma RecordedRun(l0: Log, trace: seq<Event>)
    requires OneRun(trace)
    ensures var l := Steps(l0, trace);
            && |l.runs| == |l0.runs| + 1
            && Last(l.runs).turns == TurnRows(trace) && Last(l.runs).end == EndOfTrace(trace)
            && (IsEnd(Last(trace)) <==> !l.open)
  {
    var n := |trace|;
    if IsEnd(Last(trace)) {
      RecordingARun(l0, trace, n - 1);
      StepAtEnd(Steps(l0, trace[..n - 1]), trace[n - 1], trace[..n - 1]);
      assert trace == trace[..n - 1] + [trace[n - 1]];
    } else {
      RecordingARun(l0, trace, n);
      assert trace[..n] == trace;
    }
  }

  // ---- recording several runs ------------------------------------------------

  /** A closed run's row, or any row but the last, keeps its turns and its end. */
  lemma StepKeepsEarlier(l: Log, e: Event, i: nat)
    requires i < |l.runs| && (!l.open || i < |l.runs| - 1)
    ensures var l' := Step(l, e);
            && i < |l'.runs| && (!l'.open || i < |l'.runs| - 1)
            && l'.runs[i].turns == l.runs[i].turns && l'.runs[i].end == l.runs[i].end
  {
    if e.AttentionResolved? {
      ResolvingKeepsTurns(l, e);
    }
  }

  lemma {:induction false} StepsKeepEarlier(l: Log, events: seq<Event>, i: nat)
    requires i < |l.runs| && (!l.open || i < |l.runs| - 1)
    ensures var l' := Steps(l, events);
            && i < |l'.runs| && (!l'.open || i < |l'.runs| - 1)
            && l'.runs[i].turns == l.runs[i].turns && l'.runs[i].end == l.runs[i].end
  {
    if events != [] {
      StepsKeepEarlier(l, events[..|events| - 1], i);
      StepKeepsEarlier(Steps(l, events[..|events| - 1]), events[|events| - 1], i);
    }
  }

  /** The traces one after the other. */
  function Flat(traces: seq<seq<Event>>): seq<Event> {
    if traces == [] then [] else Flat(traces[..|traces| - 1]) + traces[|traces| - 1]
  }

  /** Where trace `i` begins. */
  function Offset(traces: seq<seq<Event>>, i: nat): nat
    requires i <= |traces|
  {
    |Flat(traces[..i])|
  }

  /** Runs one after the other, all but the last of them over. */
  ghost predicate InTurn(traces: seq<seq<Event>>) {
    && (forall i :: 0 <= i < |traces| ==> OneRun(traces[i]))
    && (forall i :: 0 <= i < |traces| - 1 ==> IsEnd(Last(traces[i])))
  }

  lemma {:induction false} AllOver(traces: seq<seq<Event>>)
    requires InTurn(traces) && (traces != [] ==> IsEnd(Last(traces[|traces| - 1])))
    ensures |Steps(NO_LOG, Flat(traces)).runs| == |traces| && !Steps(NO_LOG, Flat(traces)).open
  {
    if traces != [] {
      var n := |traces| - 1;
      AllOver(traces[..n]);
      StepsAppend(NO_LOG, Flat(traces[..n]), traces[n]);
      RecordedRun(Steps(NO_LOG, Flat(traces[..n])), traces[n]);
    }
  }

  /** Row `i` is that of the run with trace `t`, over or still running. */
  ghost predicate RowOf(l: Log, i: nat, t: seq<Event>, over: bool) {
    && i < |l.runs|
    && l.runs[i].end == (if over then EndOfTrace(t) else Running)
    && (over ==> l.runs[i].turns == TurnRows(t))
  }

  /** The row of a run after `j` events, when it began before. */
  lemma {:induction false} RunInTurn(traces: seq<seq<Event>>, i: nat, j: nat)
    requires InTurn(traces) && i < |traces| && Offset(traces, i) < j <= |Flat(traces)|
    ensures RowOf(Steps(NO_LOG, Flat(traces)[..j]), i, traces[i], j >= Offset(traces, i + 1))
    decreases |traces|
  {
    var n := |traces| - 1;
    var init := traces[..n];
    if i == n {
      LastRunInTurn(traces, j);
    } else {
      InitOffsets(traces, i);
      if j <= |Flat(init)| {
        assert Flat(traces)[..j] == Flat(init)[..j];
        RunInTurn(init, i, j);
      } else {
        assert Flat(init)[..|Flat(init)|] == Flat(init);
        RunInTurn(init, i, |Flat(init)|);
        EarlierRunStays(traces, i, j);
      }
    }
  }

  lemma InitOffsets(traces: seq<seq<Event>>, i: nat)
    requires InTurn(traces) && i < |traces| - 1
    ensures var init := traces[..|traces| - 1];
            && InTurn(init) && init[i] == traces[i]
            && Offset(init, i) == Offset(traces, i) < |Flat(init)|
            && Offset(init, i + 1) == Offset(traces, i + 1) <= |Flat(init)|
  {
    var init := traces[..|traces| - 1];
    assert init[..i] == traces[..i] && init[..i + 1] == traces[..i + 1];
    OffsetsGrow(init, i);
    OffsetsGrow(init, i + 1);
  }

  lemma EarlierRunStays(traces: seq<seq<Event>>, i: nat, j: nat)
    requires InTurn(traces) && i < |traces| - 1 && |Flat(traces[..|traces| - 1])| < j <= |Flat(traces)|
    requires RowOf(Steps(NO_LOG, Flat(traces[..|traces| - 1])), i, traces[i], true)
    ensures RowOf(Steps(NO_LOG, Flat(traces)[..j]), i, traces[i], true)
  {
    var init := traces[..|traces| - 1];
    var more := Last(traces)[..j - |Flat(init)|];
    CutBehind(Flat(init), Last(traces), j);
    StepsAppend(NO_LOG, Flat(init), more);
    AllOver(init);
    StepsKeepEarlier(Steps(NO_LOG, Flat(init)), more, i);
  }

  lemma LastRunInTurn(traces: seq<seq<Event>>, j: nat)
    requires InTurn(traces) && traces != [] && Offset(traces, |traces| - 1) < j <= |Flat(traces)|
    ensures RowOf(Steps(NO_LOG, Flat(traces)[..j]), |traces| - 1, Last(traces), j >= Offset(traces, |traces|))
  {
    var init, t := traces[..|traces| - 1], Last(traces);
    assert traces[..|traces|] == traces;
    AllOver(init);
    NextRunInTurn(Flat(init), t, |init|, j);
  }

  /** The run recorded after `i` finished ones. */
  lemma NextRunInTurn(base: seq<Event>, t: seq<Event>, i: nat, j: nat)
    requires OneRun(t) && |base| < j <= |base + t|
    requires |Steps(NO_LOG, base).runs| == i
    ensures RowOf(Steps(NO_LOG, (base + t)[..j]), i, t, j == |base + t|)
  {
    CutBehind(base, t, j);
    StepsAppend(NO_LOG, base, t[..j - |base|]);
    LastInTurn(Steps(NO_LOG, base), t, j - |base|);
  }

  lemma CutBehind(base: seq<Event>, t: seq<Event>, j: nat)
    requires |base| <= j <= |base + t|
    ensures (base + t)[..j] == base + t[..j - |base|]
  {
  }

  lemma LastInTurn(l0: Log, t: seq<Event>, m: nat)
    requires OneRun(t) && 1 <= m <= |t|
    ensures var l := Steps(l0, t[..m]);
            && |l.runs| == |l0.runs| + 1
            && Last(l.runs).end == (if m == |t| then EndOfTrace(t) else Running)
            && (m == |t| ==> Last(l.runs).turns == TurnRows(t))
  {
    if m == |t| {
      assert t[..m] == t;
      RecordedRun(l0, t);
    } else {
      RecordingARun(l0, t, m);
    }
  }

  lemma {:induction false} OffsetsGrow(traces: seq<seq<Event>>, i: nat)
    requires InTurn(traces) && i <= |traces|
    ensures Offset(traces, i) <= |Flat(traces)| && (i < |traces| ==> Offset(traces, i) < |Flat(traces)|)
  {
    if i < |traces| {
      var n := |traces| - 1;
      OffsetsGrow(traces[..n], i);
      assert traces[..n][..i] == traces[..i];
    } else {
      assert traces[..i] == traces;
    }
  }

  // ---- each run's row is ended once ------------------------------------------

  lemma {:induction false} ProjectPrefix(stream: seq<(string, Event)>, session: string, n: nat)
    requires n <= |stream|
    ensures |Project(stream[..n], session)| <= |Project(stream, session)|
    ensures Project(stream[..n], session) == Project(stream, session)[..|Project(stream[..n], session)|]
  {
    if n == |stream| {
      assert stream[..n] == stream;
    } else {
      var m := |stream| - 1;
      ProjectPrefix(stream[..m], session, n);
      assert stream[..m][..n] == stream[..n];
    }
  }

  function TracesOf(runs: seq<(Setup, World)>): seq<seq<Event>> {
    seq(|runs|, i requires 0 <= i < |runs| => SessionRun(runs[i].0, runs[i].1).run.core.trace)
  }

  /** Runs of a session, recorded one after the other among the events of other sessions: once its start is recorded,
      a run's row stays running until the run's own end event is recorded, and from then on carries that very end. */
  lemma EachRunEndsOnce(owner: string -> string, stream: seq<(string, Event)>, session: string,
                        runs: seq<(Setup, World)>, i: nat, n: nat)
    requires AllTagged(owner, stream) && Project(stream, session) == Flat(TracesOf(runs))
    requires forall k :: 0 <= k < |runs| - 1 ==> SessionRun(runs[k].0, runs[k].1).Over?
    requires i < |runs| && n <= |stream| && Offset(TracesOf(runs), i) < |Project(stream[..n], session)|
    ensures var rows := ViewSession(RecordAll(EMPTY, stream[..n]), session);
            && i < |rows|
            && rows[i].end == if |Project(stream[..n], session)| >= Offset(TracesOf(runs), i + 1)
                              then EndOfTrace(TracesOf(runs)[i]) else Running
  {
    TracesInTurn(runs);
    ProjectPrefix(stream, session, n);
    RowsAreOwnHistory(owner, stream[..n], session);
    RunInTurn(TracesOf(runs), i, |Project(stream[..n], session)|);
  }

  lemma TracesInTurn(runs: seq<(Setup, World)>)
    requires forall k :: 0 <= k < |runs| - 1 ==> SessionRun(runs[k].0, runs[k].1).Over?
    ensures InTurn(TracesOf(runs))
  {
    forall k | 0 <= k < |runs|
      ensures OneRun(TracesOf(runs)[k]) && (IsEnd(Last(TracesOf(runs)[k])) <==> SessionRun(runs[k].0, runs[k].1).Over?)
    {
      RunIsOneRun(runs[k].0, runs[k].1);
    }
  }
}
