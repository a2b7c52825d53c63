/** What the database says about a recorded run, column by column, in terms of the run's events. */
module StoredRun {
  import opened Text
  import opened RunModel
  import opened Orchestrator
  import opened TraceShape
  import opened RunFacts
  import opened Recorder
  import opened RecorderFacts
  import opened RunRows
  import opened EndToEnd

  // ---- turns, decisions and the end -------------------------------------------------

  /** A turn's row has the turn's number, the prompt it reported and its reply, ... */
  lemma TurnIsStored(owner: string -> string, stream: seq<(string, Event)>, session: string, history: seq<Event>,
                     s: Setup, w: World, i: nat)
    requires RecordedLast(owner, stream, session, history, s, w)
    ensures var rows := ViewSession(RecordAll(EMPTY, stream), session);
            var events := TurnsOf(SessionRun(s, w).run.core.trace);
            && rows != [] && |Last(rows).turns| == |events|
            && (i < |events| ==>
                  var cols := Last(rows).turns[i].cols;
                  cols.n == i + 1 && events[i] == Turn(cols.n, cols.prompt, cols.text))
  {
    RowsOfARecordedRun(owner, stream, session, history, s, w);
    EveryRunIsWellFormed(s, w);
  }

  /** ... and each decision made after it: whether it was to go on, to stop or to ask, the prompt if it was to go on,
      and
      the reason. */
  lemma DecisionIsStored(owner: string -> string, stream: seq<(string, Event)>, session: string, history: seq<Event>,
                         s: Setup, w: World, i: nat, j: nat)
    requires RecordedLast(owner, stream, session, history, s, w)
    requires i < |TurnsOf(SessionRun(s, w).run.core.trace)|
    ensures var rows := ViewSession(RecordAll(EMPTY, stream), session);
            var ds := DecisionsAfter(SessionRun(s, w).run.core.trace, i + 1);
            && rows != [] && i < |Last(rows).turns| && |Last(rows).turns[i].decisions| == |ds|
            && (j < |ds| ==> Says(Last(rows).turns[i].decisions[j], ds[j]))
  {
    RowsOfARecordedRun(owner, stream, session, history, s, w);
    RowSays(SessionRun(s, w).run.core.trace, i, j);
  }

  predicate Says(cols: DecisionCols, d: Decision) {
    && (cols.action == ToContinue <==> d.Continue?)
    && (cols.action == ToStop <==> d.Finish?)
    && (cols.action == ToEscalate <==> d.Escalate?)
    && (if d.Continue? then cols.prompt == Some(d.prompt) else cols.prompt == None)
    && cols.reason == d.reason
  }

  lemma RowSays(trace: seq<Event>, i: nat, j: nat)
    requires i < |TurnsOf(trace)|
    ensures var ds := DecisionsAfter(trace, i + 1);
            && i < |TurnRows(trace)| && |TurnRows(trace)[i].decisions| == |ds|
            && (j < |ds| ==> Says(TurnRows(trace)[i].decisions[j], ds[j]))
  {
    var ds := DecisionsAfter(trace, i + 1);
    assert TurnRows(trace)[i].decisions == ColumnsOf(ds);
    if j < |ds| { ColumnsSay(ds[j]); }
  }

  lemma ColumnsSay(d: Decision)
    ensures Says(Columns(d), d)
  {
  }

  /** The run's row says how it ended: with which stop, after how many turns, or with which error; and that it is
      running
      as long as it has done neither. */
  lemma EndIsStored(owner: string -> string, stream: seq<(string, Event)>, session: string, history: seq<Event>,
                    s: Setup, w: World)
    requires RecordedLast(owner, stream, session, history, s, w)
    ensures var rows, trace := ViewSession(RecordAll(EMPTY, stream), session), SessionRun(s, w).run.core.trace;
            && rows != [] && trace != []
            && match Last(trace)
               case Stop(why, turns) => Last(rows).end == EndedAs(why, turns)
               case Error(message) => Last(rows).end == ErroredAs(message)
               case _ => Last(rows).end == Running
  {
    RowsOfARecordedRun(owner, stream, session, history, s, w);
    RunIsOneRun(s, w);
  }

  // ---- requests to the human --------------------------------------------------------

  /** Each answer comes right after its request. */
  ghost predicate AnsweredAtOnce(trace: seq<Event>) {
    forall i :: 0 <= i < |trace| && trace[i].AttentionResolved? ==> Resolves(trace, i)
  }

  predicate Resolves(trace: seq<Event>, i: nat)
    requires i < |trace| && trace[i].AttentionResolved?
  {
    i > 0 && trace[i - 1].Attention? && trace[i - 1].request == trace[i].request
  }

  lemma RunAnswersAtOnce(s: Setup, w: World)
    ensures AnsweredAtOnce(SessionRun(s, w).run.core.trace)
  {
    var trace := SessionRun(s, w).run.core.trace;
    forall i | 0 <= i < |trace| && trace[i].AttentionResolved?
      ensures Resolves(trace, i)
    {
      DecisionsAreDone(s, w, i);
    }
  }

  /** The number of the last turn so far. */
  function LatestTurn(trace: seq<Event>): Option<nat> {
    TurnsOfAreTurns(trace);
    var turns := TurnsOf(trace);
    if turns == [] then None else Some(turns[|turns| - 1].n)
  }

  function AnswerText(x: Resolution): string {
    if x.ChooseStop? then "stop" else x.name
  }

  /** One row for each request, completed by the answer. */
  function RequestRows(trace: seq<Event>): seq<AttentionView> {
    if trace == [] then []
    else
      var before, e := trace[..|trace| - 1], trace[|trace| - 1];
      var rows := RequestRows(before);
      if e.Attention? then
        rows + [AttentionView(LatestTurn(before), e.request.question, e.request.options, None)]
      else if e.AttentionResolved? && rows != [] then
        SetLast(rows, Last(rows).(chosen := Some(AnswerText(e.resolution))))
      else rows
  }

  lemma RequestRowsSnoc(trace: seq<Event>, e: Event)
    ensures var rows := RequestRows(trace);
            RequestRows(trace + [e]) ==
            if e.Attention? then
              rows + [AttentionView(LatestTurn(trace), e.request.question, e.request.options, None)]
            else if e.AttentionResolved? && rows != [] then
              SetLast(rows, Last(rows).(chosen := Some(AnswerText(e.resolution))))
            else rows
  {
    assert (trace + [e])[..|trace|] == trace;
  }

  /** The open run's requests so far, and the last one still pending if it came last. */
  ghost predicate Asked(l: Log, trace: seq<Event>) {
    && l.runs != [] && l.open
    && Last(l.runs).attentions == RequestRows(trace)
    && (trace != [] && Last(trace).Attention? ==> Pends(l, Last(trace).request.id))
  }

  predicate Pends(l: Log, id: string) {
    l.runs != [] && Last(l.runs).attentions != [] && id in l.pending
    && l.pending[id] == (|l.runs| - 1, |Last(l.runs).attentions| - 1)
  }

  lemma StepAsks(l: Log, e: Event, before: seq<Event>)
    requires Asked(l, before) && Last(l.runs).turns == TurnRows(before) && !e.Start? && !IsEnd(e)
    requires e.AttentionResolved? ==> before != [] && Last(before).Attention? && Last(before).request == e.request
    ensures Asked(Step(l, e), before + [e])
  {
    RequestRowsSnoc(before, e);
    assert Last(before + [e]) == e;
    if e.AttentionResolved? {
      AnswerCompletes(l, e);
    } else if e.Attention? {
      RequestIsNoted(l, e, before);
    } else {
      OthersKeepRequests(l, e);
    }
  }

  lemma RequestIsNoted(l: Log, e: Event, before: seq<Event>)
    requires l.runs != [] && l.open && e.Attention? && Last(l.runs).turns == TurnRows(before)
    ensures var l' := Step(l, e);
            && Pends(l', e.request.id) && l'.open
            && Last(l'.runs).attentions == Last(l.runs).attentions
                 + [AttentionView(LatestTurn(before), e.request.question, e.request.options, None)]
  {
  }

  lemma OthersKeepRequests(l: Log, e: Event)
    requires l.runs != [] && l.open && !e.Attention? && !e.AttentionResolved? && !e.Start? && !IsEnd(e)
    ensures var l' := Step(l, e); l'.runs != [] && l'.open && Last(l'.runs).attentions == Last(l.runs).attentions
  {
  }

  lemma AnswerCompletes(l: Log, e: Event)
    requires e.AttentionResolved? && Pends(l, e.request.id)
    ensures var l', rows := Step(l, e), Last(l.runs).attentions;
            && l'.runs != [] && l'.open == l.open
            && Last(l'.runs).attentions == SetLast(rows, Last(rows).(chosen := Some(AnswerText(e.resolution))))
  {
  }

  lemma {:induction false} RecordingAsks(l0: Log, trace: seq<Event>, k: nat)
    requires OneRun(trace) && AnsweredAtOnce(trace) && 1 <= k <= |trace|
    requires forall i :: 0 <= i < k ==> !IsEnd(trace[i])
    ensures Asked(Steps(l0, trace[..k]), trace[..k])
  {
    assert trace[..k] == trace[..k - 1] + [trace[k - 1]];
    assert trace[..k][..k - 1] == trace[..k - 1];
    if k == 1 {
      assert trace[..0] == [];
      RequestRowsSnoc([], trace[0]);
    } else {
      RecordingAsks(l0, trace, k - 1);
      RecordingARun(l0, trace, k - 1);
      assert Last(trace[..k - 1]) == trace[k - 2];
      assert trace[k - 1].AttentionResolved? ==> Resolves(trace, k - 1);
      StepAsks(Steps(l0, trace[..k - 1]), trace[k - 1], trace[..k - 1]);
    }
  }

  lemma EndAsksNoMore(l: Log, before: seq<Event>, e: Event)
    requires Asked(l, before) && IsEnd(e)
    ensures var l' := Step(l, e); l'.runs != [] && Last(l'.runs).attentions == RequestRows(before + [e])
  {
    RequestRowsSnoc(before, e);
  }

  lemma RecordedRequests(l0: Log, trace: seq<Event>)
    requires OneRun(trace) && AnsweredAtOnce(trace)
    ensures var l := Steps(l0, trace); l.runs != [] && Last(l.runs).attentions == RequestRows(trace)
  {
    var n := |trace|;
    if IsEnd(Last(trace)) && n > 1 {
      RecordingAsks(l0, trace, n - 1);
      assert trace == trace[..n - 1] + [trace[n - 1]];
      EndAsksNoMore(Steps(l0, trace[..n - 1]), trace[..n - 1], trace[n - 1]);
    } else {
      RecordingAsks(l0, trace, n);
      assert trace[..n] == trace;
    }
  }

  // ---- ... one by one ----------------------------------------------------------------

  /** How many requests there are. */
  function Requests(trace: seq<Event>): nat {
    if trace == [] then 0
    else Requests(trace[..|trace| - 1]) + if trace[|trace| - 1].Attention? then 1 else 0
  }

  lemma {:induction false} RequestsGrow(trace: seq<Event>, i: nat)
    requires i <= |trace|
    ensures Requests(trace[..i]) <= Requests(trace)
    ensures i < |trace| && trace[i].Attention? ==> Requests(trace[..i]) < Requests(trace)
  {
    if i < |trace| {
      var m := |trace| - 1;
      assert trace[..m][..i] == trace[..i];
      RequestsGrow(trace[..m], i);
    } else {
      assert trace[..i] == trace;
    }
  }

  /** The answer right behind the event, if there is one. */
  function AnswerBehind(trace: seq<Event>, i: nat): Option<string> {
    if i + 1 < |trace| && trace[i + 1].AttentionResolved? then Some(AnswerText(trace[i + 1].resolution)) else None
  }

  lemma {:induction false} RowsAreRequests(trace: seq<Event>)
    ensures |RequestRows(trace)| == Requests(trace)
  {
    if trace != [] { RowsAreRequests(trace[..|trace| - 1]); }
  }

  lemma {:induction false} RequestRowAt(trace: seq<Event>, i: nat)
    requires AnsweredAtOnce(trace) && i < |trace| && trace[i].Attention?
    ensures Requests(trace[..i]) < |RequestRows(trace)|
    ensures var q := trace[i].request;
            RequestRows(trace)[Requests(trace[..i])]
            == AttentionView(LatestTurn(trace[..i]), q.question, q.options, AnswerBehind(trace, i))
  {
    var m := |trace| - 1;
    var before, e := trace[..m], trace[m];
    RowsAreRequests(before);
    if i < m {
      assert before[..i] == trace[..i];
      assert AnsweredAtOnce(before) by {
        forall k | 0 <= k < m && before[k].AttentionResolved?
          ensures Resolves(before, k)
        {
          assert Resolves(trace, k);
        }
      }
      RequestRowAt(before, i);
      if e.AttentionResolved? {
        assert Resolves(trace, m);
        LastIsAnswered(trace, i);
      }
    }
  }

  /** An answer completes the row of the request before it and no other. */
  lemma LastIsAnswered(trace: seq<Event>, i: nat)
    requires trace != [] && Last(trace).AttentionResolved? && i < |trace| - 1 && trace[i].Attention?
    requires Resolves(trace, |trace| - 1)
    ensures var m := |trace| - 1;
            Requests(trace[..i]) == Requests(trace[..m]) - 1 <==> i == m - 1
  {
    var m := |trace| - 1;
    var before := trace[..m];
    assert before[..m - 1] == trace[..m - 1];
    if i < m - 1 {
      assert before[..m - 1][..i] == trace[..i];
      RequestsGrow(before[..m - 1], i);
    }
  }

  /** A request's row says after which turn it was put, what was asked and offered, and what the human chose: "stop", or
      the name of the option; as long as there is no answer, nothing. */
  lemma RequestIsStored(owner: string -> string, stream: seq<(string, Event)>, session: string, history: seq<Event>,
                        s: Setup, w: World, i: nat)
    requires RecordedLast(owner, stream, session, history, s, w)
    requires i < |SessionRun(s, w).run.core.trace| && SessionRun(s, w).run.core.trace[i].Attention?
    ensures var rows, trace := ViewSession(RecordAll(EMPTY, stream), session), SessionRun(s, w).run.core.trace;
            var k, q, n := Requests(trace[..i]), trace[i].request, |TurnsOf(trace[..i])|;
            && rows != [] && |Last(rows).attentions| == Requests(trace) > k
            && var row := Last(rows).attentions[k];
               && row.question == q.question && row.options == q.options
               && row.afterTurn == (if n == 0 then None else Some(n))
               && row.chosen == if i + 1 < |trace| && trace[i + 1].AttentionResolved? then
                                  Some(if trace[i + 1].resolution.ChooseStop? then "stop"
                                       else trace[i + 1].resolution.name)
                                else None
  {
    var trace := SessionRun(s, w).run.core.trace;
    RunIsOneRun(s, w);
    RunAnswersAtOnce(s, w);
    RowsAreOwnHistory(owner, stream, session);
    StepsAppend(NO_LOG, history, trace);
    RecordedRequests(Steps(NO_LOG, history), trace);
    RequestRowAt(trace, i);
    RowsAreRequests(trace);
    LatestIsCount(s, w, i);
  }

  lemma LatestIsCount(s: Setup, w: World, i: nat)
    requires i <= |SessionRun(s, w).run.core.trace|
    ensures var before := SessionRun(s, w).run.core.trace[..i];
            LatestTurn(before) == if TurnsOf(before) == [] then None else Some(|TurnsOf(before)|)
  {
    var trace := SessionRun(s, w).run.core.trace;
    EveryRunIsWellFormed(s, w);
    TurnsOfPrefix(trace, i);
    TurnsOfAreTurns(trace[..i]);
  }

  lemma {:induction false} TurnsOfPrefix(trace: seq<Event>, i: nat)
    requires i <= |trace|
    ensures TurnsOf(trace[..i]) <= TurnsOf(trace)
  {
    if i < |trace| {
      var m := |trace| - 1;
      assert trace[..m][..i] == trace[..i];
      TurnsOfPrefix(trace[..m], i);
    } else {
      assert trace[..i] == trace;
    }
  }
}
