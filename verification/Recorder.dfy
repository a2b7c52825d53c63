/** The event recorder of `src/db/recorder.ts` over the tables of `src/db/store.ts`. */
module Recorder {
  import opened Text
  import opened GuardPolicy
  import opened RunModel

  // ---- tables with a foreign key ---------------------------------------------

  /** A row knows its parent row; its own id is its position. */
  datatype Row<K, V> = Row(parent: K, value: V)

  /** The ids of a parent's rows, oldest first. */
  function Children<K(==), V>(table: seq<Row<K, V>>, parent: K): seq<nat> {
    if table == [] then []
    else
      var n := |table| - 1;
      Children(table[..n], parent) + if table[n].parent == parent then [n] else []
  }

  lemma ChildrenAppend<K, V>(table: seq<Row<K, V>>, row: Row<K, V>, parent: K)
    ensures Children(table + [row], parent) == Children(table, parent) + if row.parent == parent then [|table|] else []
  {
    assert (table + [row])[..|table|] == table;
  }

  lemma {:induction false} ChildrenFacts<K, V>(table: seq<Row<K, V>>, parent: K)
    ensures forall i :: 0 <= i < |Children(table, parent)| ==>
            Children(table, parent)[i] < |table| && table[Children(table, parent)[i]].parent == parent
    ensures forall i, j :: 0 <= i < j < |Children(table, parent)| ==>
            Children(table, parent)[i] < Children(table, parent)[j]
  {
    if table != [] {
      ChildrenFacts(table[..|table| - 1], parent);
    }
  }

  lemma {:induction false} ChildrenUpdate<K, V>(table: seq<Row<K, V>>, i: nat, v: V, parent: K)
    requires i < |table|
    ensures Children(table[i := table[i].(value := v)], parent) == Children(table, parent)
  {
    var n := |table| - 1;
    var changed := table[i := table[i].(value := v)];
    if i < n {
      ChildrenUpdate(table[..n], i, v, parent);
      assert changed[..n] == table[..n][i := table[i].(value := v)];
    } else {
      assert changed[..n] == table[..n];
    }
  }

  // ---- the tables and the recorder's maps ------------------------------------

  datatype RunEnd = Running | EndedAs(why: Reason, turns: nat) | ErroredAs(message: string)

  datatype TurnCols = TurnCols(n: nat, prompt: string, text: string)

  datatype Action = ToContinue | ToStop | ToEscalate

  datatype DecisionCols = DecisionCols(action: Action, prompt: Option<string>, reason: string)

  /** `turn` is the id of the row of the session's last turn, if it has one. */
  datatype AttentionCols =
    AttentionCols(turn: Option<nat>, question: string, options: seq<AttentionOption>, chosen: Option<string>)

  /** The store's tables and the three maps that link events to rows. */
  datatype Rec = Rec(
    runs: seq<Row<string, RunEnd>>,
    turns: seq<Row<nat, TurnCols>>,
    decisions: seq<Row<nat, DecisionCols>>,
    attentions: seq<Row<Option<nat>, AttentionCols>>,
    runOf: map<string, nat>,
    turnOf: map<string, nat>,
    attentionOf: map<string, nat>)

  const EMPTY := Rec([], [], [], [], map[], map[], map[])

  function Columns(d: Decision): DecisionCols {
    match d
    case Continue(prompt, reason) => DecisionCols(ToContinue, Some(prompt), reason)
    case Finish(reason) => DecisionCols(ToStop, None, reason)
    case Escalate(reason, _, _) => DecisionCols(ToEscalate, None, reason)
  }

  function ChosenName(r: Resolution): string {
    match r
    case ChooseStop => "stop"
    case Choose(_, name) => name
  }

  function EndRun(r: Rec, session: string, end: RunEnd): Rec {
    var runs :=
      if session in r.runOf && r.runOf[session] < |r.runs|
      then r.runs[r.runOf[session] := r.runs[r.runOf[session]].(value := end)]
      else r.runs;
    r.(runs := runs, runOf := r.runOf - {session}, turnOf := r.turnOf - {session})
  }

  /** What one event does to the tables and maps. */
  function Record(r: Rec, session: string, e: Event): Rec {
    match e
    case Start(_) =>
      r.(runs := r.runs + [Row(session, Running)],
         runOf := r.runOf[session := |r.runs|],
         turnOf := r.turnOf - {session})
    case Turn(n, prompt, text) =>
      if session !in r.runOf then r
      else r.(turns := r.turns + [Row(r.runOf[session], TurnCols(n, prompt, text))],
              turnOf := r.turnOf[session := |r.turns|])
    case Decided(_, d) =>
      if session !in r.turnOf then r
      else r.(decisions := r.decisions + [Row(r.turnOf[session], Columns(d))])
    case Attention(_, q) =>
      var run := if session in r.runOf then Some(r.runOf[session]) else None;
      var turn := if session in r.turnOf then Some(r.turnOf[session]) else None;
      r.(attentions := r.attentions + [Row(run, AttentionCols(turn, q.question, q.options, None))],
         attentionOf := r.attentionOf[q.id := |r.attentions|])
    case AttentionResolved(q, resolution) =>
      var attentions :=
        if q.id in r.attentionOf && r.attentionOf[q.id] < |r.attentions|
        then
          var id := r.attentionOf[q.id];
          var row := r.attentions[id];
          r.attentions[id := row.(value := row.value.(chosen := Some(ChosenName(resolution))))]
        else r.attentions;
      r.(attentions := attentions, attentionOf := r.attentionOf - {q.id})
    case Stop(why, turns) => EndRun(r, session, EndedAs(why, turns))
    case Error(message) => EndRun(r, session, ErroredAs(message))
    case _ => r
  }

  /** Recording a stream of tagged events. */
  function RecordAll(r: Rec, stream: seq<(string, Event)>): Rec {
    if stream == [] then r
    else
      var n := |stream| - 1;
      Record(RecordAll(r, stream[..n]), stream[n].0, stream[n].1)
  }

  class Recorder {
    var runs: seq<Row<string, RunEnd>>
    var turns: seq<Row<nat, TurnCols>>
    var decisions: seq<Row<nat, DecisionCols>>
    var attentions: seq<Row<Option<nat>, AttentionCols>>
    var runBySession: map<string, nat>
    var lastTurnBySession: map<string, nat>
    var attnRowByReqId: map<string, nat>

    constructor ()
      ensures View() == EMPTY
    {
      runs, turns, decisions, attentions := [], [], [], [];
      runBySession, lastTurnBySession, attnRowByReqId := map[], map[], map[];
    }

    function View(): Rec
      reads this
    {
      Rec(runs, turns, decisions, attentions, runBySession, lastTurnBySession, attnRowByReqId)
    }

    /** The maps point at rows that exist. */
    predicate Linked()
      reads this
    {
      && (forall s :: s in runBySession ==> runBySession[s] < |runs|)
      && (forall q :: q in attnRowByReqId ==> attnRowByReqId[q] < |attentions|)
    }

    /** Feed one orchestrator event. */
    method Records(session: string, e: Event)
      requires Linked()
      modifies this
      ensures Linked() && View() == Record(old(View()), session, e)
    {
      match e {
        case Start(_) =>
          runs := runs + [Row(session, Running)];
          runBySession := runBySession[session := |runs| - 1];
          lastTurnBySession := lastTurnBySession - {session};
        case Turn(n, prompt, text) =>
          if session in runBySession {
            turns := turns + [Row(runBySession[session], TurnCols(n, prompt, text))];
            lastTurnBySession := lastTurnBySession[session := |turns| - 1];
          }
        case Decided(_, d) =>
          if session in lastTurnBySession {
            decisions := decisions + [Row(lastTurnBySession[session], Columns(d))];
          }
        case Attention(_, q) =>
          var run := if session in runBySession then Some(runBySession[session]) else None;
          var turn := if session in lastTurnBySession then Some(lastTurnBySession[session]) else None;
          attentions := attentions + [Row(run, AttentionCols(turn, q.question, q.options, None))];
          attnRowByReqId := attnRowByReqId[q.id := |attentions| - 1];
        case AttentionResolved(q, resolution) =>
          if q.id in attnRowByReqId {
            var id := attnRowByReqId[q.id];
            var row := attentions[id];
            attentions := attentions[id := row.(value := row.value.(chosen := Some(ChosenName(resolution))))];
          }
          attnRowByReqId := attnRowByReqId - {q.id};
        case Stop(why, count) =>
          Ends(session, EndedAs(why, count));
        case Error(message) =>
          Ends(session, ErroredAs(message));
        case _ =>
      }
    }

    method Ends(session: string, end: RunEnd)
      requires Linked()
      modifies this`runs, this`runBySession, this`lastTurnBySession
      ensures Linked() && View() == EndRun(old(View()), session, end)
    {
      if session in runBySession {
        var id := runBySession[session];
        runs := runs[id := runs[id].(value := end)];
      }
      runBySession := runBySession - {session};
      lastTurnBySession := lastTurnBySession - {session};
    }
  }

  // ---- one session's rows, without ids ---------------------------------------

  datatype TurnView = TurnView(cols: TurnCols, decisions: seq<DecisionCols>)

  /** `afterTurn` is the number of the turn the request followed. */
  datatype AttentionView =
    AttentionView(afterTurn: Option<nat>, question: string, options: seq<AttentionOption>, chosen: Option<string>)

  datatype RunView = RunView(end: RunEnd, turns: seq<TurnView>, attentions: seq<AttentionView>)

  function DecisionsOfTurn(decisions: seq<Row<nat, DecisionCols>>, turn: nat): seq<DecisionCols> {
    ChildrenFacts(decisions, turn);
    var ids := Children(decisions, turn);
    seq(|ids|, i requires 0 <= i < |ids| => decisions[ids[i]].value)
  }

  function TurnsOfRun(turns: seq<Row<nat, TurnCols>>, decisions: seq<Row<nat, DecisionCols>>, run: nat): seq<TurnView> {
    ChildrenFacts(turns, run);
    var ids := Children(turns, run);
    seq(|ids|, i requires 0 <= i < |ids| => TurnView(turns[ids[i]].value, DecisionsOfTurn(decisions, ids[i])))
  }

  function Seen(turns: seq<Row<nat, TurnCols>>, c: AttentionCols): AttentionView {
    var n := if c.turn.Some? && c.turn.value < |turns| then Some(turns[c.turn.value].value.n) else None;
    AttentionView(n, c.question, c.options, c.chosen)
  }

  function AttentionsOfRun(turns: seq<Row<nat, TurnCols>>, attentions: seq<Row<Option<nat>, AttentionCols>>, run: nat)
    : seq<AttentionView>
  {
    ChildrenFacts(attentions, Some(run));
    var ids := Children(attentions, Some(run));
    seq(|ids|, i requires 0 <= i < |ids| => Seen(turns, attentions[ids[i]].value))
  }

  function ViewRun(r: Rec, run: nat): RunView
    requires run < |r.runs|
  {
    RunView(r.runs[run].value, TurnsOfRun(r.turns, r.decisions, run), AttentionsOfRun(r.turns, r.attentions, run))
  }

  /** Everything stored for one session, nested instead of keyed by row ids. */
  function ViewSession(r: Rec, session: string): seq<RunView> {
    ChildrenFacts(r.runs, session);
    var ids := Children(r.runs, session);
    seq(|ids|, i requires 0 <= i < |ids| => ViewRun(r, ids[i]))
  }
}
