/** Small value helpers shared by the chat model: an optional value, sequence
    prefixes, Foundation's whitespace-and-newline trimming, and line joining. */
module Common {

  /** Swift's `Optional`: `nil` is `None`. */
  datatype Option<+T> = None | Some(value: T) {

    /** Swift's `??` operator. */
    function GetOr(default: T): T {
      match this
      case Some(v) => v
      case None => default
    }
  }

  function Last<T>(s: seq<T>): T
    requires |s| > 0
  {
    s[|s| - 1]
  }

  /** Swift's `prefix(n)`: the first `n` elements, or all of them when there
      are fewer. */
  function Take<T>(s: seq<T>, n: nat): (r: seq<T>)
    ensures r <= s
    ensures |r| == if |s| < n then |s| else n
  {
    if |s| <= n then s else s[..n]
  }

  /** Membership in Foundation's `CharacterSet.whitespacesAndNewlines`:
      general category Zs plus tab (`whitespaces`), and U+000A to U+000D plus
      U+0085 (`newlines`), and the line and paragraph separators (Zl, Zp). */
  predicate IsWhitespaceOrNewline(c: char) {
    || c == '\t'
    || ('\n' <= c <= '\r')
    || c == ' '
    || c == '\U{85}'
    || c == '\U{A0}'
    || c == '\U{1680}'
    || ('\U{2000}' <= c <= '\U{200A}')
    || c == '\U{2028}'
    || c == '\U{2029}'
    || c == '\U{202F}'
    || c == '\U{205F}'
    || c == '\U{3000}'
  }

  predicate AllWhitespace(s: string) {
    forall i :: 0 <= i < |s| ==> IsWhitespaceOrNewline(s[i])
  }

  /** Drops the leading whitespace: the result is a suffix of `s` that does
      not start with whitespace, and everything dropped was whitespace. */
  function TrimStart(s: string): (r: string)
    ensures |r| <= |s| && r == s[|s| - |r|..]
    ensures AllWhitespace(s[..|s| - |r|])
    ensures |r| > 0 ==> !IsWhitespaceOrNewline(r[0])
  {
    if |s| > 0 && IsWhitespaceOrNewline(s[0]) then TrimStart(s[1..]) else s
  }

  /** Drops the trailing whitespace: the result is a prefix of `s` that does
      not end with whitespace, and everything dropped was whitespace. */
  function TrimEnd(s: string): (r: string)
    ensures r <= s
    ensures AllWhitespace(s[|r|..])
    ensures |r| > 0 ==> !IsWhitespaceOrNewline(Last(r))
  {
    if |s| > 0 && IsWhitespaceOrNewline(Last(s)) then TrimEnd(s[..|s| - 1]) else s
  }

  /** `trimmingCharacters(in: .whitespacesAndNewlines)`. The trimmed text is
      empty exactly when every character was whitespace or a newline. */
  function Trim(s: string): (r: string)
    ensures exists i, j :: 0 <= i <= j <= |s| && r == s[i..j] && AllWhitespace(s[..i]) && AllWhitespace(s[j..])
    ensures |r| > 0 ==> !IsWhitespaceOrNewline(r[0]) && !IsWhitespaceOrNewline(Last(r))
    ensures r == "" <==> AllWhitespace(s)
  {
    TrimmedEmptyExactlyWhenBlank(s);
    TrimCutsOnlyEnds(s);
    TrimEnd(TrimStart(s))
  }

  /** What trimming keeps is a slice of the text, with only whitespace on
      either side of it. */
  lemma TrimCutsOnlyEnds(s: string)
    ensures var r := TrimEnd(TrimStart(s));
      exists i, j :: 0 <= i <= j <= |s| && r == s[i..j] && AllWhitespace(s[..i]) && AllWhitespace(s[j..])
  {
    var t := TrimStart(s);
    BlankAroundSlice(s, t, TrimEnd(t));
  }

  /** A prefix `r` of a suffix `t` of `s`, with only whitespace cut off on
      each side, is a slice of `s` between whitespace. */
  lemma BlankAroundSlice(s: string, t: string, r: string)
    requires |t| <= |s| && t == s[|s| - |t|..] && AllWhitespace(s[..|s| - |t|])
    requires r <= t && AllWhitespace(t[|r|..])
    ensures exists i, j :: 0 <= i <= j <= |s| && r == s[i..j] && AllWhitespace(s[..i]) && AllWhitespace(s[j..])
  {
    PrefixOfSuffix(s, t, r);
    var i := |s| - |t|;
    var j := i + |r|;
    assert r == s[i..j] && AllWhitespace(s[..i]) && AllWhitespace(s[j..]);
  }

  /** A prefix `r` of a suffix `t` of `s` is a slice of `s`, and what
      follows it in `t` is what follows it in `s`. */
  lemma PrefixOfSuffix<T>(s: seq<T>, t: seq<T>, r: seq<T>)
    requires |t| <= |s| && t == s[|s| - |t|..] && r <= t
    ensures r == s[|s| - |t|..|s| - |t| + |r|]
    ensures s[|s| - |t| + |r|..] == t[|r|..]
  {
  }

  lemma TrimmedEmptyExactlyWhenBlank(s: string)
    ensures TrimEnd(TrimStart(s)) == "" <==> AllWhitespace(s)
  {
    var t := TrimStart(s);
    var r := TrimEnd(t);
    var cut := |s| - |t|;
    if r == "" {
      assert t[0..] == t;
      AllWhitespaceConcat(s[..cut], t);
      assert s == s[..cut] + t;
    } else {
      assert r[0] == t[0] == s[cut];
    }
  }

  lemma AllWhitespaceConcat(a: string, b: string)
    requires AllWhitespace(a) && AllWhitespace(b)
    ensures AllWhitespace(a + b)
  {
    forall i | 0 <= i < |a + b|
      ensures IsWhitespaceOrNewline((a + b)[i])
    {
      if i < |a| {
        assert (a + b)[i] == a[i];
      } else {
        assert (a + b)[i] == b[i - |a|];
      }
    }
  }

  /** The send gate of both chat screens,
      `!input.trimmingCharacters(in: .whitespacesAndNewlines).isEmpty`:
      by `Trim`'s contract this is "not every character is whitespace"
      (`GateIsTrim`). */
  predicate HasContent(input: string) {
    !AllWhitespace(input)
  }

  /** The gate is exactly the source's test on the trimmed text. */
  lemma GateIsTrim(input: string)
    ensures HasContent(input) <==> Trim(input) != ""
  {
  }

  /** A text that starts with a visible character passes the gate. */
  lemma VisibleFirstHasContent(s: string)
    requires |s| > 0 && !IsWhitespaceOrNewline(s[0])
    ensures HasContent(s)
  {
    assert !AllWhitespace(s);
  }

  /** Swift's `joined(separator: "\n")`. */
  function JoinLines(lines: seq<string>): (r: string)
  {
    if |lines| == 0 then ""
    else if |lines| == 1 then lines[0]
    else lines[0] + "\n" + JoinLines(lines[1..])
  }

  /** The joined text starts with the first line. */
  lemma JoinLinesStartsWithFirst(lines: seq<string>)
    requires |lines| > 0
    ensures lines[0] <= JoinLines(lines)
  {
  }

  /** Joining one more line adds a newline and that line at the end. */
  lemma {:induction false} JoinLinesSnoc(lines: seq<string>, l: string)
    requires |lines| > 0
    ensures JoinLines(lines + [l]) == JoinLines(lines) + "\n" + l
    decreases |lines|
  {
    if |lines| > 1 {
      assert (lines + [l])[1..] == lines[1..] + [l];
      JoinLinesSnoc(lines[1..], l);
    }
  }

  /** Splits a text at every newline; the inverse of `JoinLines` on lines
      that hold no newline themselves. */
  function SplitLines(s: string): (r: seq<string>)
    ensures |r| > 0
    decreases |s|
  {
    if '\n' !in s then [s]
    else
      var i := IndexOfNewline(s);
      [s[..i]] + SplitLines(s[i + 1..])
  }

  function IndexOfNewline(s: string): (i: nat)
    requires '\n' in s
    ensures i < |s| && s[i] == '\n' && '\n' !in s[..i]
  {
    if s[0] == '\n' then 0
    else
      var j := IndexOfNewline(s[1..]);
      assert s[..j + 1] == [s[0]] + s[1..][..j];
      j + 1
  }

  predicate NoNewlines(lines: seq<string>) {
    forall i :: 0 <= i < |lines| ==> '\n' !in lines[i]
  }

  /** Joining newline-free lines and splitting the result gives the lines back. */
  lemma {:induction false} SplitJoinLines(lines: seq<string>)
    requires |lines| > 0 && NoNewlines(lines)
    ensures SplitLines(JoinLines(lines)) == lines
  {
    if |lines| == 1 {
    } else {
      var rest := JoinLines(lines[1..]);
      var s := lines[0] + "\n" + rest;
      assert s[|lines[0]|] == '\n';
      assert s[..|lines[0]|] == lines[0];
      var i := IndexOfNewline(s);
      assert i == |lines[0]|;
      assert s[i + 1..] == rest;
      SplitJoinLines(lines[1..]);
    }
  }
}
