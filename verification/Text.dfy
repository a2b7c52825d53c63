/** Strings as the repository's TypeScript treats them: white space, trimming, lower case,
    the two normalisations, word overlap and decimal numerals.
    Case mapping is modelled on ASCII letters. */
module Text {
  datatype Option<+T> = None | Some(value: T)

  /** The characters matched by `\s` and removed by `trim()`. */
  predicate IsSpace(c: char) {
    var n := c as int;
    || 9 <= n <= 13
    || n == 32
    || n == 0xa0
    || n == 0x1680
    || 0x2000 <= n <= 0x200a
    || n == 0x2028
    || n == 0x2029
    || n == 0x202f
    || n == 0x205f
    || n == 0x3000
    || n == 0xfeff
  }

  /** Some character of `s` is not white space. */
  ghost predicate HasInk(s: string) {
    exists i :: 0 <= i < |s| && !IsSpace(s[i])
  }

  function TrimStart(s: string): string {
    if s != "" && IsSpace(s[0]) then TrimStart(s[1..]) else s
  }

  function TrimEnd(s: string): string {
    if s != "" && IsSpace(s[|s| - 1]) then TrimEnd(s[..|s| - 1]) else s
  }

  function Trim(s: string): string {
    TrimEnd(TrimStart(s))
  }

  lemma {:induction false} TrimStartKeepsInk(s: string)
    ensures HasInk(TrimStart(s)) <==> HasInk(s)
  {
    if s != "" && IsSpace(s[0]) {
      TrimStartKeepsInk(s[1..]);
      assert forall i :: 0 <= i < |s[1..]| ==> s[1..][i] == s[i + 1];
      if HasInk(s) {
        var i :| 0 <= i < |s| && !IsSpace(s[i]);
        assert !IsSpace(s[1..][i - 1]);
      }
    }
  }

  lemma {:induction false} TrimEndKeepsInk(s: string)
    ensures HasInk(TrimEnd(s)) <==> HasInk(s)
  {
    if s != "" && IsSpace(s[|s| - 1]) {
      var t := s[..|s| - 1];
      TrimEndKeepsInk(t);
      if HasInk(s) {
        var i :| 0 <= i < |s| && !IsSpace(s[i]);
        assert !IsSpace(t[i]);
      }
    }
  }

  lemma {:induction false} TrimEndInked(s: string)
    ensures TrimEnd(s) != "" ==> HasInk(TrimEnd(s))
  {
    if s != "" && IsSpace(s[|s| - 1]) {
      TrimEndInked(s[..|s| - 1]);
    } else if s != "" {
      assert !IsSpace(s[|s| - 1]);
    }
  }

  /** A string trims to nothing exactly when it is blank. */
  lemma TrimIsBlankTest(s: string)
    ensures Trim(s) != "" <==> HasInk(s)
  {
    TrimStartKeepsInk(s);
    TrimEndKeepsInk(TrimStart(s));
    TrimEndInked(TrimStart(s));
  }

  lemma {:induction false} TrimStartShrinks(s: string)
    ensures |TrimStart(s)| <= |s| && (s != "" && IsSpace(s[0]) ==> |TrimStart(s)| < |s|)
  {
    if s != "" && IsSpace(s[0]) { TrimStartShrinks(s[1..]); }
  }

  lemma {:induction false} TrimEndShrinks(s: string)
    ensures |TrimEnd(s)| <= |s|
    ensures s != "" && IsSpace(s[|s| - 1]) ==> |TrimEnd(s)| < |s|
  {
    if s != "" && IsSpace(s[|s| - 1]) { TrimEndShrinks(s[..|s| - 1]); }
  }

  /** A trimmed string is one that neither starts nor ends with white space. */
  lemma TrimmedIff(s: string)
    ensures Trim(s) == s <==> (s == "" || (!IsSpace(s[0]) && !IsSpace(s[|s| - 1])))
  {
    TrimStartShrinks(s);
    TrimEndShrinks(TrimStart(s));
    if s != "" && IsSpace(s[|s| - 1]) { TrimEndShrinks(s); }
  }

  lemma {:induction false} TrimEndIsTrimmed(s: string)
    ensures TrimEnd(s) <= s
    ensures TrimEnd(s) == "" || !IsSpace(TrimEnd(s)[|TrimEnd(s)| - 1])
  {
    if s != "" && IsSpace(s[|s| - 1]) { TrimEndIsTrimmed(s[..|s| - 1]); }
  }

  lemma {:induction false} TrimStartIsTrimmed(s: string)
    ensures TrimStart(s) == "" || !IsSpace(TrimStart(s)[0])
  {
    if s != "" && IsSpace(s[0]) { TrimStartIsTrimmed(s[1..]); }
  }

  lemma TrimIsTrimmed(s: string)
    ensures Trim(Trim(s)) == Trim(s)
  {
    TrimStartIsTrimmed(s);
    TrimEndIsTrimmed(TrimStart(s));
    TrimmedIff(Trim(s));
  }

  function LowerChar(c: char): (r: char)
    ensures IsSpace(r) <==> IsSpace(c)
  {
    if 'A' <= c <= 'Z' then (c as int + 32) as char else c
  }

  function Lower(s: string): string {
    seq(|s|, i requires 0 <= i < |s| => LowerChar(s[i]))
  }

  /** Every maximal run of separator characters becomes one space. */
  function Collapse(s: string, separator: char -> bool): string {
    if s == "" then ""
    else if !separator(s[0]) then [s[0]] + Collapse(s[1..], separator)
    else if |s| > 1 && separator(s[1]) then Collapse(s[1..], separator)
    else " " + Collapse(s[1..], separator)
  }

  /** The learning loop's normal form: lower case, white space collapsed, trimmed. */
  function Normalize(s: string): string {
    Trim(Collapse(Lower(s), IsSpace))
  }

  lemma {:induction false} CollapseKeepsInk(s: string)
    ensures HasInk(s) ==> HasInk(Collapse(s, IsSpace))
  {
    if HasInk(s) {
      var t := Collapse(s[1..], IsSpace);
      if !IsSpace(s[0]) {
        assert Collapse(s, IsSpace)[0] == s[0];
      } else {
        var i :| 0 <= i < |s| && !IsSpace(s[i]);
        assert !IsSpace(s[1..][i - 1]);
        CollapseKeepsInk(s[1..]);
        var j :| 0 <= j < |t| && !IsSpace(t[j]);
        assert (" " + t)[j + 1] == t[j];
      }
    }
  }

  /** Normalising never erases a string that has something in it. */
  lemma NormalizeKeepsInk(s: string)
    requires Trim(s) != ""
    ensures Normalize(s) != ""
  {
    TrimIsBlankTest(s);
    var i :| 0 <= i < |s| && !IsSpace(s[i]);
    assert !IsSpace(Lower(s)[i]);
    CollapseKeepsInk(Lower(s));
    TrimIsBlankTest(Collapse(Lower(s), IsSpace));
  }

  function Split(s: string, at: char): (r: seq<string>)
    ensures |r| > 0
  {
    if s == "" then [""]
    else
      var rest := Split(s[1..], at);
      if s[0] == at then [""] + rest else [[s[0]] + rest[0]] + rest[1..]
  }

  /** The first piece of a split runs up to the first separator. */
  lemma {:induction false} SplitAtFirst(s: string, at: char, k: nat)
    requires k < |s| && s[k] == at && at !in s[..k]
    ensures Split(s, at) == [s[..k]] + Split(s[k + 1..], at)
  {
    if k > 0 {
      assert s[..k][0] == s[0] && s[1..][..k - 1] == s[..k][1..];
      SplitAtFirst(s[1..], at, k - 1);
      var rest, tail := Split(s[1..], at), Split(s[k + 1..], at);
      assert s[1..][k - 1 + 1..] == s[k + 1..];
      assert rest == [s[1..][..k - 1]] + tail;
      assert rest[0] == s[1..][..k - 1] && rest[1..] == tail;
      assert [s[0]] + rest[0] == s[..k];
      assert s[0] in s[..k];
      assert Split(s, at) == [[s[0]] + rest[0]] + rest[1..] == [s[..k]] + tail;
    } else {
      assert s[..k] == "";
      assert s[k + 1..] == s[1..];
      assert Split(s, at) == [""] + Split(s[1..], at);
    }
  }

  /** The significant words (two characters or more) of a normalised string. */
  function TokenSet(s: string): set<string> {
    set w | w in Split(Normalize(s), ' ') && |w| >= 2
  }

  /** Jaccard overlap of the two word sets is at least nine tenths. */
  predicate NearIdentical(a: string, b: string) {
    var sa, sb := TokenSet(a), TokenSet(b);
    if sa == {} && sb == {} then true
    else if sa == {} || sb == {} then false
    else 10 * |sa * sb| >= 9 * (|sa| + |sb| - |sa * sb|)
  }

  /** Two instructions count as the same: equal or near-identical after normalisation. */
  predicate SameInstruction(a: string, b: string) {
    var na, nb := Normalize(a), Normalize(b);
    na != "" && nb != "" && (na == nb || NearIdentical(na, nb))
  }

  predicate Contains(s: string, part: string) {
    part <= s || (s != "" && Contains(s[1..], part))
  }

  function DropWord(s: string): string {
    if s != "" && !IsSpace(s[|s| - 1]) then DropWord(s[..|s| - 1]) else s
  }

  /** At most about `n` characters, cut at a word boundary and marked with an ellipsis. */
  function Truncate(s: string, n: nat): string {
    var t := Trim(s);
    if |t| <= n then t
    else
      var cut := t[..n];
      TrimEnd(if DropWord(cut) == "" then cut else DropWord(cut)) + "…"
  }

  /** Decimal numeral without leading zeros. */
  function Decimal(n: nat): (s: string)
    ensures s != ""
    ensures forall i :: 0 <= i < |s| ==> '0' <= s[i] <= '9'
  {
    var digit := ['0' + (n % 10) as char];
    if n < 10 then digit else Decimal(n / 10) + digit
  }

  function DigitValue(c: char): int {
    c as int - '0' as int
  }

  /** The number a digit string denotes. */
  function ParseDigits(s: string): int {
    if s == "" then 0 else 10 * ParseDigits(s[..|s| - 1]) + DigitValue(s[|s| - 1])
  }

  lemma {:induction false} DecimalRoundTrip(n: nat)
    ensures ParseDigits(Decimal(n)) == n
  {
    var digit := ['0' + (n % 10) as char];
    assert DigitValue(digit[0]) == n % 10;
    if n < 10 {
      assert digit[..0] == "";
    } else {
      DecimalRoundTrip(n / 10);
      assert Decimal(n)[..|Decimal(n)| - 1] == Decimal(n / 10);
    }
  }
}
