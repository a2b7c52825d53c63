/** The incremental line parser of `src/session/headlessSession.ts` (`StreamJsonParser`). */
module StreamJson {
  import opened Text

  /** What one JSON line can say; `Noise` is a line that does not parse or is of another type. */
  datatype Entry =
    | Noise
    | Assistant(text: string)
    | Result(sessionId: Option<string>, isError: bool, result: Option<string>)

  /** JSON parsing itself stays abstract. */
  type LineReader = string -> Entry

  datatype Parsed = Parsed(
    lastAssistantText: string,
    resultText: Option<string>,
    resultIsError: bool,
    sawResult: bool,
    resultSessionId: Option<string>)

  const NOTHING := Parsed("", None, false, false, None)

  /** What one line adds. */
  function Line(read: LineReader, p: Parsed, raw: string): Parsed {
    var t := Trim(raw);
    if t == "" then p
    else
      match read(t)
      case Noise => p
      case Assistant(text) => if text != "" then p.(lastAssistantText := text) else p
      case Result(sessionId, isError, result) =>
        Parsed(
          p.lastAssistantText,
          if result.Some? && Trim(result.value) != "" then Some(Trim(result.value)) else p.resultText,
          isError,
          true,
          if sessionId.Some? then sessionId else p.resultSessionId)
  }

  function Lines(read: LineReader, p: Parsed, lines: seq<string>): Parsed
    decreases lines
  {
    if lines == [] then p else Lines(read, Line(read, p, lines[0]), lines[1..])
  }

  /** A whole stream: fold over its newline-separated lines, the last one possibly unterminated. */
  function ParseStream(read: LineReader, s: string): Parsed {
    Lines(read, NOTHING, Split(s, '\n'))
  }

  class StreamJsonParser {
    const read: LineReader
    var buf: string
    var state: Parsed

    constructor (read: LineReader)
      ensures this.read == read && buf == "" && state == NOTHING
    {
      this.read := read;
      buf, state := "", NOTHING;
    }

    /** Feed one chunk: every complete line is consumed, the rest waits. */
    method Feed(chunk: string)
      modifies this
      ensures (state, buf) == Absorb(read, old(state), old(buf) + chunk)
    {
      buf := buf + chunk;
      ghost var all, p := buf, state;
      while true
        invariant Absorb(read, p, all) == Absorb(read, state, buf)
        decreases |buf|
      {
        var nl := IndexOf(buf, '\n');
        if nl == -1 {
          NoNewline(buf);
          break;
        }
        FirstLineAbsorbed(read, state, buf, nl);
        state := Line(read, state, buf[..nl]);
        buf := buf[nl + 1..];
      }
    }

    /** Consume a final unterminated line. */
    method Flush()
      modifies this
      ensures buf == "" && state == Line(read, old(state), old(buf))
    {
      if Trim(buf) != "" {
        state := Line(read, state, buf);
      }
      buf := "";
    }

    function AssistantText(): string
      reads this
    {
      if state.resultText.Some? then state.resultText.value else state.lastAssistantText
    }
  }

  method IndexOf(s: string, c: char) returns (i: int)
    ensures i == -1 ==> c !in s
    ensures i != -1 ==> 0 <= i < |s| && s[i] == c && c !in s[..i]
  {
    i := 0;
    while i < |s|
      invariant 0 <= i <= |s| && c !in s[..i]
    {
      if s[i] == c {
        return;
      }
      i := i + 1;
    }
    return -1;
  }

  /** The state and the waiting rest after consuming every complete line of `s`. */
  function Absorb(read: LineReader, p: Parsed, s: string): (Parsed, string) {
    var lines := Split(s, '\n');
    (Lines(read, p, lines[..|lines| - 1]), lines[|lines| - 1])
  }

  lemma {:induction false} NoNewline(s: string)
    requires '\n' !in s
    ensures Split(s, '\n') == [s]
  {
    if s != "" {
      NoNewline(s[1..]);
      assert s[0] in s && [s[0]] + s[1..] == s;
      assert [s[1..]][1..] == [];
    }
  }

  lemma FirstLineAbsorbed(read: LineReader, p: Parsed, s: string, nl: nat)
    requires nl < |s| && s[nl] == '\n' && '\n' !in s[..nl]
    ensures Absorb(read, p, s) == Absorb(read, Line(read, p, s[..nl]), s[nl + 1..])
  {
    SplitAtFirst(s, '\n', nl);
    var rest := Split(s[nl + 1..], '\n');
    var lines := Split(s, '\n');
    assert lines[..|lines| - 1] == [s[..nl]] + rest[..|rest| - 1];
  }

  // ---- chunking does not matter ----------------------------------------------

  /** Two lists of pieces, the last of the first grown into the first of the second. */
  function Joined(x: seq<string>, y: seq<string>): (r: seq<string>)
    requires x != [] && y != []
  {
    x[..|x| - 1] + [x[|x| - 1] + y[0]] + y[1..]
  }

  lemma JoinedOne(first: string, y: seq<string>)
    requires y != []
    ensures Joined([first], y) == [first + y[0]] + y[1..]
  {
    assert [first][..0] == [];
  }

  lemma JoinedCons(first: string, rest: seq<string>, y: seq<string>)
    requires rest != [] && y != []
    ensures Joined([first] + rest, y) == [first] + Joined(rest, y)
  {
    var x := [first] + rest;
    assert x[..|x| - 1] == [first] + rest[..|rest| - 1];
  }

  /** Growing the first piece by a character commutes with joining at the last piece. */
  lemma JoinedGrow(c: char, rest: seq<string>, y: seq<string>)
    requires rest != [] && y != []
    ensures Joined([[c] + rest[0]] + rest[1..], y) == [[c] + Joined(rest, y)[0]] + Joined(rest, y)[1..]
  {
    if |rest| == 1 {
      assert rest[1..] == [];
      assert rest == [rest[0]];
      assert [[c] + rest[0]] + [] == [[c] + rest[0]];
      JoinedOne([c] + rest[0], y);
      JoinedOne(rest[0], y);
      assert ([c] + rest[0]) + y[0] == [c] + (rest[0] + y[0]);
    } else {
      JoinedCons([c] + rest[0], rest[1..], y);
      JoinedCons(rest[0], rest[1..], y);
      assert rest == [rest[0]] + rest[1..];
    }
  }

  /** Splitting a concatenation: the last piece of the first part grows into the first of the second. */
  lemma {:induction false} SplitAppend(a: string, b: string, at: char)
    ensures Split(a + b, at) == Joined(Split(a, at), Split(b, at))
  {
    var y := Split(b, at);
    if a == "" {
      assert a + b == b;
      JoinedOne("", y);
      assert "" + y[0] == y[0] && y == [y[0]] + y[1..];
    } else {
      SplitAppend(a[1..], b, at);
      assert (a + b)[0] == a[0] && (a + b)[1..] == a[1..] + b;
      if a[0] == at {
        JoinedCons("", Split(a[1..], at), y);
      } else {
        JoinedGrow(a[0], Split(a[1..], at), y);
      }
    }
  }

  lemma {:induction false} LinesAppend(read: LineReader, p: Parsed, a: seq<string>, b: seq<string>)
    ensures Lines(read, p, a + b) == Lines(read, Lines(read, p, a), b)
    decreases a
  {
    if a == [] {
      assert a + b == b;
    } else {
      LinesAppend(read, Line(read, p, a[0]), a[1..], b);
      assert (a + b)[1..] == a[1..] + b;
    }
  }

  lemma {:induction false} RestHasNoNewline(s: string)
    ensures '\n' !in Split(s, '\n')[|Split(s, '\n')| - 1]
  {
    if s != "" {
      RestHasNoNewline(s[1..]);
    }
  }

  /** The lines of `a + b` are the complete lines of `a`, then the lines of its rest with `b` attached. */
  lemma SplitRest(a: string, b: string)
    ensures var x := Split(a, '\n'); Split(a + b, '\n') == x[..|x| - 1] + Split(x[|x| - 1] + b, '\n')
  {
    var x, y := Split(a, '\n'), Split(b, '\n');
    var rest := x[|x| - 1];
    RestHasNoNewline(a);
    NoNewline(rest);
    SplitAppend(a, b, '\n');
    SplitAppend(rest, b, '\n');
    JoinedOne(rest, y);
    JoinedCut(x, y);
  }

  lemma JoinedCut(x: seq<string>, y: seq<string>)
    requires x != [] && y != []
    ensures Joined(x, y) == x[..|x| - 1] + ([x[|x| - 1] + y[0]] + y[1..])
  {
  }

  lemma InitOfSum(a: seq<string>, b: seq<string>)
    requires b != []
    ensures (a + b)[..|a + b| - 1] == a + b[..|b| - 1] && (a + b)[|a + b| - 1] == b[|b| - 1]
  {
  }

  /** Feeding `a` and then `b` is feeding `a + b`. */
  lemma AbsorbAppend(read: LineReader, p: Parsed, a: string, b: string)
    ensures var (q, rest) := Absorb(read, p, a); Absorb(read, q, rest + b) == Absorb(read, p, a + b)
  {
    var x := Split(a, '\n');
    var k := |x| - 1;
    SplitRest(a, b);
    var tail, whole := Split(x[k] + b, '\n'), Split(a + b, '\n');
    InitOfSum(x[..k], tail);
    LinesAppend(read, p, x[..k], tail[..|tail| - 1]);
  }

  function FeedAll(read: LineReader, p: Parsed, buf: string, chunks: seq<string>): (Parsed, string)
    decreases chunks
  {
    if chunks == [] then (p, buf)
    else
      var (q, rest) := Absorb(read, p, buf + chunks[0]);
      FeedAll(read, q, rest, chunks[1..])
  }

  function Join(chunks: seq<string>): string {
    if chunks == [] then "" else chunks[0] + Join(chunks[1..])
  }

  lemma {:induction false} FeedAllIsOneFeed(read: LineReader, p: Parsed, buf: string, chunks: seq<string>)
    requires '\n' !in buf
    ensures FeedAll(read, p, buf, chunks) == Absorb(read, p, buf + Join(chunks))
    decreases chunks
  {
    if chunks == [] {
      assert buf + "" == buf;
      NoNewline(buf);
    } else {
      var (q, rest) := Absorb(read, p, buf + chunks[0]);
      RestHasNoNewline(buf + chunks[0]);
      FeedAllIsOneFeed(read, q, rest, chunks[1..]);
      AbsorbAppend(read, p, buf + chunks[0], Join(chunks[1..]));
      JoinStep(buf, chunks);
    }
  }

  lemma JoinStep(buf: string, chunks: seq<string>)
    requires chunks != []
    ensures (buf + chunks[0]) + Join(chunks[1..]) == buf + Join(chunks)
  {
  }

  /** The complete lines, then the rest: that is all the lines. */
  lemma RestIsTheLastLine(read: LineReader, s: string)
    ensures var (p, rest) := Absorb(read, NOTHING, s); Line(read, p, rest) == ParseStream(read, s)
  {
    var lines := Split(s, '\n');
    var k := |lines| - 1;
    assert lines == lines[..k] + [lines[k]];
    LinesAppend(read, NOTHING, lines[..k], [lines[k]]);
    assert [lines[k]][1..] == [];
  }

  /** However a stream is cut into chunks, feeding them and flushing reads it line by line. */
  lemma ChunkingInvariance(read: LineReader, chunks: seq<string>)
    ensures var (p, buf) := FeedAll(read, NOTHING, "", chunks);
            Line(read, p, buf) == ParseStream(read, Join(chunks))
  {
    FeedAllIsOneFeed(read, NOTHING, "", chunks);
    assert "" + Join(chunks) == Join(chunks);
    RestIsTheLastLine(read, Join(chunks));
  }

  /** A child process's output, chunk by chunk, then its end. */
  method ReadOutput(read: LineReader, chunks: seq<string>) returns (text: string, sawResult: bool, isError: bool)
    ensures var p := ParseStream(read, Join(chunks));
            && text == (if p.resultText.Some? then p.resultText.value else p.lastAssistantText)
            && sawResult == p.sawResult && isError == p.resultIsError
  {
    var parser := new StreamJsonParser(read);
    var i := 0;
    while i < |chunks|
      invariant 0 <= i <= |chunks| && fresh(parser) && parser.read == read
      invariant FeedAll(read, NOTHING, "", chunks) == FeedAll(read, parser.state, parser.buf, chunks[i..])
    {
      assert chunks[i..][1..] == chunks[i + 1..];
      parser.Feed(chunks[i]);
      i := i + 1;
    }
    ChunkingInvariance(read, chunks);
    parser.Flush();
    text, sawResult, isError := parser.AssistantText(), parser.state.sawResult, parser.state.resultIsError;
  }
}
