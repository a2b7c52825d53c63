/** What is left of a stream in the end, whatever its lines and however it was cut: for each field, the last line that
    has something to say about it. */
module StreamFacts {
  import opened Text
  import opened StreamJson

  /** What a line says; a blank one says nothing. */
  function Entry(read: LineReader, line: string): StreamJson.Entry {
    if Trim(line) == "" then Noise else read(Trim(line))
  }

  predicate Speaks(read: LineReader, line: string) {
    Entry(read, line).Assistant? && Entry(read, line).text != ""
  }

  predicate Ends(read: LineReader, line: string) {
    Entry(read, line).Result?
  }

  predicate Answers(read: LineReader, line: string) {
    var e := Entry(read, line);
    e.Result? && e.result.Some? && Trim(e.result.value) != ""
  }

  predicate NamesSession(read: LineReader, line: string) {
    var e := Entry(read, line);
    e.Result? && e.sessionId.Some?
  }

  /** Line `i` is the last one with the property; -1 when there is none. */
  ghost predicate LastWith(has: string -> bool, lines: seq<string>, i: int) {
    && -1 <= i < |lines|
    && (i >= 0 ==> has(lines[i]))
    && forall j :: i < j < |lines| ==> !has(lines[j])
  }

  lemma LastInTail(has: string -> bool, lines: seq<string>, i: int)
    requires lines != [] && LastWith(has, lines, i)
    ensures LastWith(has, lines[1..], if i >= 0 then i - 1 else -1)
  {
    forall j | (if i >= 0 then i - 1 else -1) < j < |lines[1..]|
      ensures !has(lines[1..][j])
    {
      assert lines[1..][j] == lines[j + 1];
    }
  }

  /** The reply shown is that of the last assistant line that is not empty. */
  lemma {:induction false} LastReply(read: LineReader, p: Parsed, lines: seq<string>, i: int)
    requires LastWith(x => Speaks(read, x), lines, i)
    ensures Lines(read, p, lines).lastAssistantText
            == if i >= 0 then Entry(read, lines[i]).text else p.lastAssistantText
    decreases lines
  {
    if lines != [] {
      LastInTail(x => Speaks(read, x), lines, i);
      LastReply(read, Line(read, p, lines[0]), lines[1..], if i >= 0 then i - 1 else -1);
    }
  }

  /** Whether there was a result, and whether it was an error, is what the last result line says. */
  lemma {:induction false} LastResult(read: LineReader, p: Parsed, lines: seq<string>, i: int)
    requires LastWith(x => Ends(read, x), lines, i)
    ensures var q := Lines(read, p, lines);
            && q.sawResult == (i >= 0 || p.sawResult)
            && q.resultIsError == if i >= 0 then Entry(read, lines[i]).isError else p.resultIsError
    decreases lines
  {
    if lines != [] {
      LastInTail(x => Ends(read, x), lines, i);
      LastResult(read, Line(read, p, lines[0]), lines[1..], if i >= 0 then i - 1 else -1);
    }
  }

  /** The result's text is that of the last result line that has one which is not blank. */
  lemma {:induction false} LastAnswer(read: LineReader, p: Parsed, lines: seq<string>, i: int)
    requires LastWith(x => Answers(read, x), lines, i)
    ensures Lines(read, p, lines).resultText
            == if i >= 0 then Some(Trim(Entry(read, lines[i]).result.value)) else p.resultText
    decreases lines
  {
    if lines != [] {
      LastInTail(x => Answers(read, x), lines, i);
      LastAnswer(read, Line(read, p, lines[0]), lines[1..], if i >= 0 then i - 1 else -1);
    }
  }

  lemma {:induction false} LastSession(read: LineReader, p: Parsed, lines: seq<string>, i: int)
    requires LastWith(x => NamesSession(read, x), lines, i)
    ensures Lines(read, p, lines).resultSessionId
            == if i >= 0 then Entry(read, lines[i]).sessionId else p.resultSessionId
    decreases lines
  {
    if lines != [] {
      LastInTail(x => NamesSession(read, x), lines, i);
      LastSession(read, Line(read, p, lines[0]), lines[1..], if i >= 0 then i - 1 else -1);
    }
  }

  /** A whole stream: with `reply`, `end`, `answer` and `session` the last lines that say something of the kind. */
  lemma StreamIsItsLastWords(read: LineReader, s: string, reply: int, end: int, answer: int, session: int)
    requires LastWith(x => Speaks(read, x), Split(s, '\n'), reply) && LastWith(x => Ends(read, x), Split(s, '\n'), end)
    requires LastWith(x => Answers(read, x), Split(s, '\n'), answer)
    requires LastWith(x => NamesSession(read, x), Split(s, '\n'), session)
    ensures var p, lines := ParseStream(read, s), Split(s, '\n');
            && p.lastAssistantText == (if reply >= 0 then Entry(read, lines[reply]).text else "")
            && p.sawResult == (end >= 0) && p.resultIsError == (end >= 0 && Entry(read, lines[end]).isError)
            && p.resultText == (if answer >= 0 then Some(Trim(Entry(read, lines[answer]).result.value)) else None)
            && p.resultSessionId == if session >= 0 then Entry(read, lines[session]).sessionId else None
  {
    var lines := Split(s, '\n');
    LastReply(read, NOTHING, lines, reply);
    LastResult(read, NOTHING, lines, end);
    LastAnswer(read, NOTHING, lines, answer);
    LastSession(read, NOTHING, lines, session);
  }
}
