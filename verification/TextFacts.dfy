/** What the string functions mean: trimming, the normal forms prompts are compared in, word overlap and cutting to
    length, in terms of a string's words and characters. */
module TextFacts {
  import opened Text

  /** White space as the language standard lists it: tab to carriage return, the space, the no-break spaces, the other
      space separators, and the line and paragraph separators. */
  lemma SpaceIff(c: char)
    ensures IsSpace(c) <==>
            c as int in {9, 10, 11, 12, 13, 0x20, 0xA0, 0x1680, 0x2000, 0x2001, 0x2002, 0x2003, 0x2004, 0x2005, 0x2006,
                         0x2007, 0x2008, 0x2009, 0x200A, 0x2028, 0x2029, 0x202F, 0x205F, 0x3000, 0xFEFF}
  {
  }

  /** Lower case: the capitals A to Z become the letters a to z, in this order, and nothing else changes. */
  lemma LowerIs(s: string, i: nat)
    requires i < |s|
    ensures |Lower(s)| == |s|
    ensures if 'A' <= s[i] <= 'Z' then 'a' <= Lower(s)[i] && Lower(s)[i] - 'a' == s[i] - 'A' else Lower(s)[i] == s[i]
  {
  }

  // ---- trimming ----------------------------------------------------------------

  lemma {:induction false} TrimStartDrops(s: string) returns (i: nat)
    ensures i <= |s| && TrimStart(s) == s[i..] && forall k :: 0 <= k < i ==> IsSpace(s[k])
    ensures i < |s| ==> !IsSpace(s[i])
  {
    if s != "" && IsSpace(s[0]) {
      var j := TrimStartDrops(s[1..]);
      i := j + 1;
      forall k | 0 <= k < i
        ensures IsSpace(s[k])
      {
        if k > 0 { assert s[1..][k - 1] == s[k]; }
      }
    } else {
      i := 0;
    }
  }

  lemma {:induction false} TrimEndDrops(s: string) returns (j: nat)
    ensures j <= |s| && TrimEnd(s) == s[..j] && forall k :: j <= k < |s| ==> IsSpace(s[k])
    ensures j > 0 ==> !IsSpace(s[j - 1])
  {
    if s != "" && IsSpace(s[|s| - 1]) {
      j := TrimEndDrops(s[..|s| - 1]);
      assert s[..|s| - 1][..j] == s[..j];
      forall k | j <= k < |s|
        ensures IsSpace(s[k])
      {
        if k < |s| - 1 { assert s[..|s| - 1][k] == s[k]; }
      }
    } else {
      j := |s|;
      assert s[..j] == s;
    }
  }

  /** Trimming takes the white space off both ends, and no more. */
  lemma TrimIsTheMiddle(s: string) returns (i: nat, j: nat)
    ensures i <= j <= |s| && Trim(s) == s[i..j]
    ensures forall k :: 0 <= k < i || j <= k < |s| ==> IsSpace(s[k])
    ensures i < j ==> !IsSpace(s[i]) && !IsSpace(s[j - 1])
  {
    i := TrimStartDrops(s);
    var m := TrimEndDrops(s[i..]);
    j := i + m;
    assert s[i..][..m] == s[i..j];
    forall k | j <= k < |s|
      ensures IsSpace(s[k])
    {
      assert s[i..][k - i] == s[k];
    }
    if i < j { assert s[i..][m - 1] == s[j - 1]; }
  }

  // ---- words -------------------------------------------------------------------

  /** The maximal runs of characters that are no separators. */
  function Words(s: string, separator: char -> bool): seq<string> {
    if s == "" then []
    else
      var rest := Words(s[1..], separator);
      if separator(s[0]) then rest
      else if |s| == 1 || separator(s[1]) || rest == [] then [[s[0]]] + rest
      else [[s[0]] + rest[0]] + rest[1..]
  }

  lemma {:induction false} SameWords(s: string, f: char -> bool, g: char -> bool)
    requires forall c :: f(c) == g(c)
    ensures Words(s, f) == Words(s, g)
  {
    if s != "" { SameWords(s[1..], f, g); }
  }

  /** The words with one space between each two. */
  function Spaced(words: seq<string>): string {
    if words == [] then "" else if |words| == 1 then words[0] else words[0] + " " + Spaced(words[1..])
  }

  /** A word is not empty and holds no separator. */
  ghost predicate IsWord(w: string, s: string, separator: char -> bool) {
    Plain(w, separator) && forall i :: 0 <= i < |w| ==> w[i] in s
  }

  ghost predicate Plain(w: string, separator: char -> bool) {
    w != "" && forall i :: 0 <= i < |w| ==> !separator(w[i])
  }

  lemma {:induction false} WordsAreWords(s: string, separator: char -> bool)
    ensures forall w :: w in Words(s, separator) ==> IsWord(w, s, separator)
    ensures s != "" && !separator(s[0]) ==> Words(s, separator) != [] && Words(s, separator)[0][0] == s[0]
  {
    if s != "" {
      WordsAreWords(s[1..], separator);
      var rest, words := Words(s[1..], separator), Words(s, separator);
      forall w | w in words
        ensures IsWord(w, s, separator)
      {
        if w in rest {
          assert IsWord(w, s[1..], separator);
        } else if w != [s[0]] {
          assert rest[0] in rest && IsWord(rest[0], s[1..], separator);
          assert w == [s[0]] + rest[0];
        }
      }
    }
  }

  /** What collapsing leaves: the words, one space between each two, and one at an end that had separators. */
  function Framed(s: string, separator: char -> bool): string {
    var words := Words(s, separator);
    if s == "" then ""
    else if words == [] then " "
    else if separator(s[0]) then " " + Spaced(words) + EndSpace(s, separator)
    else Spaced(words) + EndSpace(s, separator)
  }

  function EndSpace(s: string, separator: char -> bool): string
    requires s != ""
  {
    if separator(s[|s| - 1]) then " " else ""
  }

  lemma {:induction false} CollapseIsFramed(s: string, separator: char -> bool)
    ensures Collapse(s, separator) == Framed(s, separator)
  {
    if s != "" {
      var t := s[1..];
      CollapseIsFramed(t, separator);
      WordsAreWords(t, separator);
      if t != "" {
        assert t[|t| - 1] == s[|s| - 1];
        if !separator(s[0]) {
          FrameLetter(s, separator);
        }
      }
    }
  }

  /** The words after putting a letter in front: a word of its own in front of a separator, and otherwise the first
      word gets longer. */
  lemma WordsWithLetter(s: string, separator: char -> bool)
    requires |s| > 1 && !separator(s[0])
    ensures var rest := Words(s[1..], separator);
            Words(s, separator) == if rest == [] || separator(s[1]) then [[s[0]]] + rest
                                   else [[s[0]] + rest[0]] + rest[1..]
  {
  }

  lemma FrameLetter(s: string, separator: char -> bool)
    requires |s| > 1 && !separator(s[0])
    ensures [s[0]] + Framed(s[1..], separator) == Framed(s, separator)
  {
    var rest := Words(s[1..], separator);
    WordsWithLetter(s, separator);
    if rest == [] {
      LetterBeforeNothing(s, separator);
    } else if separator(s[1]) {
      LetterBeforeSpace(s, separator);
    } else {
      LetterBeforeLetter(s, separator);
    }
  }

  lemma SameEnd(s: string, separator: char -> bool)
    requires |s| > 1
    ensures EndSpace(s[1..], separator) == EndSpace(s, separator)
  {
  }

  lemma LetterBeforeNothing(s: string, separator: char -> bool)
    requires |s| > 1 && !separator(s[0]) && Words(s[1..], separator) == [] && Words(s, separator) == [[s[0]]]
    ensures [s[0]] + Framed(s[1..], separator) == Framed(s, separator)
  {
    NoWords(s[1..], separator);
    SameEnd(s, separator);
    assert EndSpace(s[1..], separator) == " ";
    assert Framed(s, separator) == Spaced([[s[0]]]) + EndSpace(s, separator);
  }

  lemma LetterBeforeSpace(s: string, separator: char -> bool)
    requires |s| > 1 && !separator(s[0]) && separator(s[1]) && Words(s[1..], separator) != []
    requires Words(s, separator) == [[s[0]]] + Words(s[1..], separator)
    ensures [s[0]] + Framed(s[1..], separator) == Framed(s, separator)
  {
    NewWord([s[0]], Words(s[1..], separator), EndSpace(s, separator));
    FramedBehindSpace(s[1..], separator);
    SameEnd(s, separator);
    FramedBehindLetter(s, separator);
  }

  lemma LetterBeforeLetter(s: string, separator: char -> bool)
    requires |s| > 1 && !separator(s[0]) && !separator(s[1]) && Words(s[1..], separator) != []
    requires var rest := Words(s[1..], separator); Words(s, separator) == [[s[0]] + rest[0]] + rest[1..]
    ensures [s[0]] + Framed(s[1..], separator) == Framed(s, separator)
  {
    var rest := Words(s[1..], separator);
    LongerWord(s[0], rest);
    Grouped([s[0]], Spaced(rest), EndSpace(s, separator));
    SameEnd(s, separator);
    FramedBehindLetter(s, separator);
    FramedBehindLetter(s[1..], separator);
  }

  lemma FramedBehindLetter(s: string, separator: char -> bool)
    requires s != "" && !separator(s[0]) && Words(s, separator) != []
    ensures Framed(s, separator) == Spaced(Words(s, separator)) + EndSpace(s, separator)
  {
  }

  lemma FramedBehindSpace(s: string, separator: char -> bool)
    requires s != "" && separator(s[0]) && Words(s, separator) != []
    ensures Framed(s, separator) == " " + Spaced(Words(s, separator)) + EndSpace(s, separator)
  {
  }

  lemma NewWord(w: string, rest: seq<string>, end: string)
    requires rest != []
    ensures Spaced([w] + rest) + end == w + (" " + Spaced(rest) + end)
  {
    assert ([w] + rest)[1..] == rest;
  }

  lemma LongerWord(c: char, rest: seq<string>)
    requires rest != []
    ensures Spaced([[c] + rest[0]] + rest[1..]) == [c] + Spaced(rest)
  {
    var longer := [[c] + rest[0]] + rest[1..];
    assert longer[1..] == rest[1..] && longer[0] == [c] + rest[0];
    if |rest| > 1 {
      LongerHead([c], rest[0], Spaced(rest[1..]));
    }
  }

  lemma Grouped(a: string, b: string, c: string)
    ensures a + b + c == a + (b + c)
  {
  }

  lemma LongerHead(c: string, w: string, rest: string)
    ensures c + w + " " + rest == c + (w + " " + rest)
  {
  }

  lemma {:induction false} NoWords(s: string, separator: char -> bool)
    requires Words(s, separator) == []
    ensures forall k :: 0 <= k < |s| ==> separator(s[k])
  {
    if s != "" {
      NoWords(s[1..], separator);
      assert forall k :: 1 <= k < |s| ==> s[k] == s[1..][k - 1];
    }
  }

  // ---- normal forms --------------------------------------------------------------

  lemma TrimPadded(x: string, tail: string)
    requires tail in {"", " "} && x != "" && !IsSpace(x[0]) && !IsSpace(x[|x| - 1])
    ensures Trim(x + tail) == x && Trim(" " + x + tail) == x
  {
    TailTrims(x, tail);
    assert (" " + x + tail)[1..] == x + tail;
    assert TrimStart(" " + x + tail) == TrimStart(x + tail) == x + tail;
  }

  lemma TailTrims(x: string, tail: string)
    requires tail in {"", " "} && x != "" && !IsSpace(x[|x| - 1])
    ensures TrimEnd(x + tail) == x
  {
    assert TrimEnd(x) == x;
    if tail == " " {
      assert (x + tail)[..|x + tail| - 1] == x;
    } else {
      assert x + tail == x;
    }
  }

  ghost predicate AllWords(words: seq<string>, separator: char -> bool) {
    forall i :: 0 <= i < |words| ==> Plain(words[i], separator)
  }

  lemma {:induction false} SpacedEnds(words: seq<string>, separator: char -> bool)
    requires words != [] && AllWords(words, separator)
    ensures var x := Spaced(words); x != "" && !separator(x[0]) && !separator(x[|x| - 1])
  {
    assert Plain(words[0], separator);
    if |words| > 1 { SpacedEnds(words[1..], separator); }
  }

  /** Collapsed and trimmed, a string is its words with one space between each two. */
  lemma NormalForm(s: string, separator: char -> bool)
    requires forall c :: IsSpace(c) ==> separator(c)
    ensures Trim(Collapse(s, separator)) == Spaced(Words(s, separator))
  {
    var words := Words(s, separator);
    CollapseIsFramed(s, separator);
    WordsAreAllWords(s, separator);
    if words == [] {
      assert IsSpace(' ') && Trim(" ") == "" == Trim("");
    } else {
      SpacedEnds(words, separator);
      TrimPadded(Spaced(words), EndSpace(s, separator));
    }
  }

  lemma {:induction false} FirstWord(w: string, rest: string, separator: char -> bool)
    requires Plain(w, separator) && (rest == "" || separator(rest[0]))
    ensures Words(w + rest, separator) == [w] + Words(rest, separator)
  {
    var s := w + rest;
    assert s[1..] == w[1..] + rest;
    if |w| == 1 {
      assert w[1..] + rest == rest && [w[0]] == w;
      assert rest != "" ==> s[1] == rest[0];
    } else {
      FirstWord(w[1..], rest, separator);
      var tail := Words(rest, separator);
      assert Words(s[1..], separator) == [w[1..]] + tail && ([w[1..]] + tail)[1..] == tail;
      assert [w[0]] + w[1..] == w && s[1] == w[1];
    }
  }

  /** The words can be read back. */
  lemma {:induction false} WordsOfSpaced(words: seq<string>, separator: char -> bool)
    requires AllWords(words, separator) && separator(' ')
    ensures Words(Spaced(words), separator) == words
  {
    assert words != [] ==> Plain(words[0], separator);
    if |words| == 1 {
      assert words[0] + "" == words[0];
      FirstWord(words[0], "", separator);
    } else if words != [] {
      var rest := " " + Spaced(words[1..]);
      WordsOfSpaced(words[1..], separator);
      FirstWord(words[0], rest, separator);
      assert words[0] + rest == words[0] + " " + Spaced(words[1..]) && rest[1..] == Spaced(words[1..]);
    }
  }

  lemma WordsAreAllWords(s: string, separator: char -> bool)
    ensures AllWords(Words(s, separator), separator)
  {
    WordsAreWords(s, separator);
    var words := Words(s, separator);
    forall i | 0 <= i < |words|
      ensures Plain(words[i], separator)
    {
      assert IsWord(words[i], s, separator);
    }
  }

  /** Two strings have the same normal form exactly when they have the same words. */
  lemma SameNormalForm(a: string, b: string, separator: char -> bool)
    requires forall c :: IsSpace(c) ==> separator(c)
    ensures Trim(Collapse(a, separator)) == Trim(Collapse(b, separator)) <==> Words(a, separator) == Words(b, separator)
  {
    NormalForm(a, separator);
    NormalForm(b, separator);
    assert IsSpace(' ');
    WordsAreAllWords(a, separator);
    WordsAreAllWords(b, separator);
    WordsOfSpaced(Words(a, separator), separator);
    WordsOfSpaced(Words(b, separator), separator);
  }

  /** A string's words in lower case. */
  function LowerWords(s: string): seq<string> {
    Words(Lower(s), IsSpace)
  }

  lemma NormalizeIsItsWords(s: string)
    ensures Normalize(s) == Spaced(LowerWords(s))
    ensures Words(Normalize(s), IsSpace) == LowerWords(s)
  {
    NormalForm(Lower(s), IsSpace);
    WordsAreAllWords(Lower(s), IsSpace);
    assert IsSpace(' ');
    WordsOfSpaced(LowerWords(s), IsSpace);
  }

  /** No letter is a capital. */
  ghost predicate IsLower(s: string) {
    forall i :: 0 <= i < |s| ==> !('A' <= s[i] <= 'Z')
  }

  lemma {:induction false} SpacedIsLower(words: seq<string>)
    requires forall w :: w in words ==> IsLower(w)
    ensures IsLower(Spaced(words))
  {
    if words != [] {
      assert IsLower(words[0]);
      SpacedIsLower(words[1..]);
    }
  }

  /** A normal form is its own. */
  lemma NormalizeTwice(s: string)
    ensures Normalize(Normalize(s)) == Normalize(s) && LowerWords(Normalize(s)) == LowerWords(s)
  {
    NormalizeIsItsWords(s);
    WordsAreWords(Lower(s), IsSpace);
    forall w | w in LowerWords(s)
      ensures IsLower(w)
    {
      assert IsWord(w, Lower(s), IsSpace);
      forall i | 0 <= i < |w|
        ensures !('A' <= w[i] <= 'Z')
      {
        assert w[i] in Lower(s);
      }
    }
    SpacedIsLower(LowerWords(s));
    var x := Normalize(s);
    assert Lower(x) == x;
    NormalizeIsItsWords(x);
  }

  // ---- word overlap --------------------------------------------------------------

  lemma {:induction false} SplitSpaced(words: seq<string>)
    requires words != [] && forall w :: w in words ==> ' ' !in w
    ensures Split(Spaced(words), ' ') == words
  {
    var w := words[0];
    if |words| == 1 {
      SplitWhole(w);
    } else {
      var rest := Spaced(words[1..]);
      var s := w + " " + rest;
      assert s[|w|] == ' ' && s[..|w|] == w && s[|w| + 1..] == rest;
      SplitAtFirst(s, ' ', |w|);
      SplitSpaced(words[1..]);
    }
  }

  lemma {:induction false} SplitWhole(s: string)
    requires ' ' !in s
    ensures Split(s, ' ') == [s]
  {
    if s != "" {
      assert s[0] in s;
      SplitWhole(s[1..]);
      assert [s[0]] + s[1..] == s;
    }
  }

  /** The lower-case words of two characters or more. */
  function LongWords(s: string): set<string> {
    set w | w in LowerWords(s) && |w| >= 2
  }

  lemma TokensAreLongWords(s: string)
    ensures TokenSet(s) == LongWords(s)
  {
    NormalizeIsItsWords(s);
    WordsAreAllWords(Lower(s), IsSpace);
    if LowerWords(s) == [] {
      assert Split("", ' ') == [""];
    } else {
      var words := LowerWords(s);
      forall i | 0 <= i < |words|
        ensures ' ' !in words[i]
      {
        assert Plain(words[i], IsSpace) && IsSpace(' ');
      }
      SplitSpaced(words);
    }
  }

  lemma UnionSize<T>(a: set<T>, b: set<T>)
    ensures |a + b| == |a| + |b| - |a * b|
  {
  }

  /** Two instructions are the same exactly when neither is blank and they have the same words in lower case, or at
      least nine tenths of the words of two characters or more that occur in either occur in both. */
  lemma SameInstructionIff(a: string, b: string)
    ensures SameInstruction(a, b) <==>
            && LowerWords(a) != [] && LowerWords(b) != []
            && (|| LowerWords(a) == LowerWords(b)
                || 10 * |LongWords(a) * LongWords(b)| >= 9 * |LongWords(a) + LongWords(b)|)
  {
    var na, nb := Normalize(a), Normalize(b);
    NormalizeIsItsWords(a);
    NormalizeIsItsWords(b);
    NormalizeTwice(a);
    NormalizeTwice(b);
    TokensAreLongWords(na);
    TokensAreLongWords(nb);
    SameNormalForm(Lower(a), Lower(b), IsSpace);
    var x, y := LongWords(a), LongWords(b);
    assert TokenSet(na) == x && TokenSet(nb) == y;
    UnionSize(x, y);
    BlankIffNoWords(a);
    BlankIffNoWords(b);
    if x == {} || y == {} { assert x * y == {}; }
  }

  lemma BlankIffNoWords(s: string)
    ensures Normalize(s) == "" <==> LowerWords(s) == []
  {
    NormalizeIsItsWords(s);
    WordsAreAllWords(Lower(s), IsSpace);
    if LowerWords(s) != [] { SpacedEnds(LowerWords(s), IsSpace); }
  }

  // ---- parts of strings ------------------------------------------------------------

  predicate StandsAt(s: string, part: string, i: int) {
    0 <= i <= |s| && part <= s[i..]
  }

  lemma StandsInTail(s: string, part: string, i: int)
    requires s != ""
    ensures StandsAt(s[1..], part, i) ==> StandsAt(s, part, i + 1)
    ensures i > 0 && StandsAt(s, part, i) ==> StandsAt(s[1..], part, i - 1)
  {
    if 0 <= i < |s| { assert s[1..][i..] == s[i + 1..]; }
    if 0 < i <= |s| { assert s[1..][i - 1..] == s[i..]; }
  }

  lemma NothingInNothing(part: string, i: int)
    ensures StandsAt("", part, i) ==> part <= ""
  {
    if i == 0 { assert ""[i..] == ""; }
  }

  /** A string contains another when that one stands somewhere in it. */
  lemma {:induction false} ContainsIff(s: string, part: string)
    ensures Contains(s, part) <==> exists i :: StandsAt(s, part, i)
  {
    if part <= s {
      assert s[0..] == s && StandsAt(s, part, 0);
    } else if s == "" {
      forall i
        ensures !StandsAt(s, part, i)
      {
        NothingInNothing(part, i);
      }
    } else {
      ContainsIff(s[1..], part);
      if Contains(s[1..], part) {
        var i :| StandsAt(s[1..], part, i);
        StandsInTail(s, part, i);
      }
      if i :| StandsAt(s, part, i) {
        assert s[0..] == s;
        StandsInTail(s, part, i);
      }
    }
  }

  lemma {:induction false} DropWordCuts(s: string) returns (m: nat)
    ensures m <= |s| && DropWord(s) == s[..m] && (forall k :: m <= k < |s| ==> !IsSpace(s[k]))
    ensures m > 0 ==> IsSpace(s[m - 1])
  {
    if s != "" && !IsSpace(s[|s| - 1]) {
      m := DropWordCuts(s[..|s| - 1]);
      assert s[..|s| - 1][..m] == s[..m];
      assert forall k :: 0 <= k < |s| - 1 ==> s[..|s| - 1][k] == s[k];
    } else {
      m := |s|;
      assert s[..m] == s;
    }
  }

  /** Cutting to length: a string that fits is only trimmed. Of one that does not, the first `n` characters are taken,
      the word they break off in is dropped with the white space before it, unless there is no other, and an ellipsis
      says that something is missing. */
  lemma TruncateCuts(s: string, n: nat) returns (m: nat, k: nat)
    ensures |Trim(s)| <= n ==> Truncate(s, n) == Trim(s)
    ensures |Trim(s)| > n ==>
              var t := Trim(s);
              && m <= k <= n && Truncate(s, n) == t[..m] + "…"
              && (m > 0 ==> !IsSpace(t[m - 1])) && (forall j :: m <= j < k ==> IsSpace(t[j]))
              && (if exists j :: 0 <= j < n && IsSpace(t[j])
                  then k > 0 && IsSpace(t[k - 1]) && forall j :: k <= j < n ==> !IsSpace(t[j])
                  else m == n)
  {
    var t := Trim(s);
    if |t| > n {
      var cut := t[..n];
      assert forall j :: 0 <= j < n ==> cut[j] == t[j];
      k := DropWordCuts(cut);
      if k == 0 { k := n; }
      m := TrimEndDrops(cut[..k]);
      assert cut[..k][..m] == t[..m];
      assert cut[..n] == cut;
      assert forall j :: 0 <= j < k ==> cut[..k][j] == t[j];
    } else {
      m, k := 0, 0;
    }
  }

  lemma {:induction false} DecimalHasNoLeadingZero(n: nat)
    ensures Decimal(n)[0] == '0' <==> n == 0
    ensures n < 10 ==> |Decimal(n)| == 1
  {
    if n >= 10 { DecimalHasNoLeadingZero(n / 10); }
  }
}
