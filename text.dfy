/**
 * Text handling shared by the protocol code: the library conversions the model takes as
 * parameters, java.util.Scanner with its default whitespace delimiter, and String.split(" ").
 */
module Text {
  import opened Wrappers

  /**
   * A library conversion between values and text (Double.toString and Double.parseDouble,
   * a DateFormat's format and parse): `parse` yields None where the library throws.
   */
  datatype Codec<!T> = Codec(parse: string -> Option<T>, show: T -> string)

  /**
   * The conversions a piece of code uses: Double.toString/parseDouble, and its DateFormat
   * (the save file's LONG US-locale format, the protocol's ISO-like pattern, or the legacy
   * protocol's FULL US-locale date and time).
   */
  datatype Formats = Formats(doubles: Codec<real>, dates: Codec<int>)

  /**
   * Reading back what was written for `x` gives `x` again. This is asked of the values a lemma
   * is about, never of every value: Double.toString cannot spell out every real, and a date
   * format without milliseconds loses them.
   */
  ghost predicate ReadsBack<T>(c: Codec<T>, x: T) {
    c.parse(c.show(x)) == Some(x)
  }

  /** What was written for `x` can be read back, perhaps as a coarser value. */
  ghost predicate ParsesBack<T>(c: Codec<T>, x: T) {
    c.parse(c.show(x)).Some?
  }

  const SampleDate: string := "2010-01-01T00:00:00.000+0000"

  /**
   * Formats that write every real as "1.5" and every date as one fixed stamp, and read those
   * back as 1.5 and 0: the round trips the lemmas assume for the values they are about can hold.
   */
  function SampleFormats(): (r: Formats)
    ensures ShowsTokens(r.doubles) && ShowsLines(r.dates)
    ensures ReadsBack(r.doubles, 1.5) && ReadsBack(r.dates, 0)
  {
    Formats(Codec(s => if s == "1.5" then Some(1.5) else None, x => "1.5"),
            Codec(s => if s == SampleDate then Some(0) else None, d => SampleDate))
  }

  /** What is written is one non-empty word without whitespace. */
  ghost predicate ShowsTokens<T(!new)>(c: Codec<T>) {
    forall x: T :: IsToken(c.show(x))
  }

  /** What is written is a non-empty text on one line that does not start with whitespace. */
  ghost predicate ShowsLines<T(!new)>(c: Codec<T>) {
    forall x: T :: c.show(x) != [] && !IsWhitespace(c.show(x)[0]) && '\n' !in c.show(x)
  }

  /**
   * Scanner's default delimiter, Character.isWhitespace: the controls U+0009-U+000D and
   * U+001C-U+001F, and the space, line and paragraph separators other than the no-break
   * spaces U+00A0, U+2007 and U+202F.
   */
  predicate IsWhitespace(c: char) {
    c == ' ' || c == '\t' || c == '\n' || c == '\U{B}' || c == '\U{C}' || c == '\r'
    || ('\U{1C}' <= c <= '\U{1F}')
    || c == '\U{1680}' || ('\U{2000}' <= c <= '\U{2006}') || ('\U{2008}' <= c <= '\U{200A}')
    || c == '\U{2028}' || c == '\U{2029}' || c == '\U{205F}' || c == '\U{3000}'
  }

  predicate IsToken(s: string) {
    |s| > 0 && forall i :: 0 <= i < |s| ==> !IsWhitespace(s[i])
  }

  /** What is left of the input once the whitespace at its start is skipped. */
  function SkipWhitespace(s: string): (r: string)
    ensures |r| <= |s|
    ensures r == [] || !IsWhitespace(r[0])
  {
    if s != [] && IsWhitespace(s[0]) then SkipWhitespace(s[1..]) else s
  }

  /** The length of the token at the start of `s`: up to the first whitespace or the end. */
  function TokenLength(s: string): (n: nat)
    ensures n <= |s|
    ensures forall k :: 0 <= k < n ==> !IsWhitespace(s[k])
    ensures n < |s| ==> IsWhitespace(s[n])
  {
    if s == [] || IsWhitespace(s[0]) then 0 else 1 + TokenLength(s[1..])
  }

  /** Scanner.hasNext(): some token is left in the unread input `s`. */
  predicate HasNext(s: string) {
    SkipWhitespace(s) != []
  }

  /** Scanner.next(): the next token and the input left after it. */
  function NextToken(s: string): (r: (string, string))
    requires HasNext(s)
    ensures IsToken(r.0)
    ensures |r.1| < |s|
    ensures r.1 == [] || IsWhitespace(r.1[0])
  {
    var t := SkipWhitespace(s);
    var n := TokenLength(t);
    (t[..n], t[n..])
  }

  /** Scanner.hasNextDouble(): the next token reads as a double. */
  predicate HasNextDouble(s: string, doubles: Codec<real>) {
    HasNext(s) && doubles.parse(NextToken(s).0).Some?
  }

  lemma {:induction false} TokenLengthOf(tok: string, rest: string)
    requires IsToken(tok)
    requires rest == [] || IsWhitespace(rest[0])
    ensures TokenLength(tok + rest) == |tok|
    decreases |tok|
  {
    var s := tok + rest;
    assert s[0] == tok[0];
    if |tok| > 1 {
      assert s[1..] == tok[1..] + rest;
      TokenLengthOf(tok[1..], rest);
    } else {
      assert s[1..] == rest;
    }
  }

  /** The next token of `tok` followed by whitespace or nothing is `tok`, and reading goes on after it. */
  lemma TokenThen(tok: string, rest: string)
    requires IsToken(tok)
    requires rest == [] || IsWhitespace(rest[0])
    ensures HasNext(tok + rest) && NextToken(tok + rest) == (tok, rest)
  {
    var s := tok + rest;
    assert s[0] == tok[0];
    TokenLengthOf(tok, rest);
    assert s[..|tok|] == tok;
    assert s[|tok|..] == rest;
  }

  /** The same when one space comes first. */
  lemma SpaceTokenThen(tok: string, rest: string)
    requires IsToken(tok)
    requires rest == [] || IsWhitespace(rest[0])
    ensures HasNext(" " + (tok + rest)) && NextToken(" " + (tok + rest)) == (tok, rest)
  {
    var s := " " + (tok + rest);
    assert s[1..] == tok + rest;
    assert (tok + rest)[0] == tok[0];
    TokenThen(tok, rest);
  }

  /**
   * Scanner.nextLine(): the rest of the current line without its terminator, and the input
   * after the terminator; None stands for the NoSuchElementException at the end of the input.
   */
  function LineFrom(s: string): (r: Option<(string, string)>)
    ensures r.Some? <==> s != []
    ensures r.Some? ==> |r.value.1| < |s|
  {
    if s == [] then None
    else if s[0] == '\n' then Some(([], s[1..]))
    else
      match LineFrom(s[1..])
      case None => Some(([s[0]], []))
      case Some((line, rest)) => Some(([s[0]] + line, rest))
  }

  /** The line read holds no '\n'. */
  lemma {:induction false} LineFromNoBreak(s: string)
    ensures LineFrom(s).Some? ==> '\n' !in LineFrom(s).value.0
    decreases |s|
  {
    if s != [] && s[0] != '\n' {
      LineFromNoBreak(s[1..]);
      var after := LineFrom(s[1..]);
      if after.Some? {
        assert forall c :: c in [s[0]] + after.value.0 ==> c == s[0] || c in after.value.0;
      }
    }
  }

  /** A line followed by '\n' is read as that line, and reading goes on after the '\n'. */
  lemma {:induction false} LineThen(line: string, rest: string)
    requires '\n' !in line
    ensures LineFrom(line + ("\n" + rest)) == Some((line, rest))
    decreases |line|
  {
    var s := line + ("\n" + rest);
    if line == [] {
      assert s == "\n" + rest && s[1..] == rest;
    } else {
      assert s[0] == line[0] && line[0] in line;
      assert s[1..] == line[1..] + ("\n" + rest);
      assert forall c :: c in line[1..] ==> c in line;
      LineThen(line[1..], rest);
      assert [line[0]] + line[1..] == line;
    }
  }

  /** The last line, with no '\n' after it, is read to the end of the input. */
  lemma {:induction false} LineAtEnd(line: string)
    requires line != [] && '\n' !in line
    ensures LineFrom(line) == Some((line, []))
    decreases |line|
  {
    assert line[0] in line;
    if |line| > 1 {
      assert forall c :: c in line[1..] ==> c in line;
      LineAtEnd(line[1..]);
      assert [line[0]] + line[1..] == line;
    } else {
      assert line[1..] == [] && [line[0]] == line;
    }
  }

  /** A line of n characters without '\n', ended by a '\n' or the end of the input. */
  lemma LineFromAt(s: string, n: nat)
    requires n <= |s| && s != []
    requires forall k :: 0 <= k < n ==> s[k] != '\n'
    requires n < |s| ==> s[n] == '\n'
    ensures LineFrom(s) == Some((s[..n], if n < |s| then s[n + 1..] else []))
  {
    NoBreakBefore(s, n);
    if n < |s| {
      LineBeforeBreak(s, n);
    } else {
      assert s[..n] == s;
      LineAtEnd(s);
    }
  }

  lemma NoBreakBefore(s: string, n: nat)
    requires n <= |s| && forall k :: 0 <= k < n ==> s[k] != '\n'
    ensures '\n' !in s[..n]
  {
    assert forall k :: 0 <= k < n ==> s[..n][k] == s[k];
  }

  lemma LineBeforeBreak(s: string, n: nat)
    requires n < |s| && s[n] == '\n' && '\n' !in s[..n]
    ensures LineFrom(s) == Some((s[..n], s[n + 1..]))
  {
    assert s == s[..n] + ("\n" + s[n + 1..]);
    LineThen(s[..n], s[n + 1..]);
  }

  /** The pieces of `s` between its spaces, empty pieces included. */
  function Pieces(s: string): (r: seq<string>)
    ensures |r| > 0
    ensures forall i :: 0 <= i < |r| ==> ' ' !in r[i]
  {
    if ' ' !in s then [s]
    else
      var k := FirstSpace(s, 0);
      [s[..k]] + Pieces(s[k + 1..])
  }

  function FirstSpace(s: string, i: nat): (k: nat)
    requires i <= |s| && ' ' in s[i..]
    ensures i <= k < |s| && s[k] == ' ' && ' ' !in s[i..k]
    decreases |s| - i
  {
    if s[i] == ' ' then i
    else
      assert s[i..] == [s[i]] + s[i + 1..];
      FirstSpace(s, i + 1)
  }

  /** Drops the empty strings at the end, as String.split does. */
  function DropTrailingEmpty(fs: seq<string>): (r: seq<string>)
    ensures |r| <= |fs| && r == fs[..|r|]
    ensures r == [] || r[|r| - 1] != ""
  {
    if fs == [] || fs[|fs| - 1] != "" then fs else DropTrailingEmpty(fs[..|fs| - 1])
  }

  /** String.split(" "): the whole string when it has no space, else its pieces without trailing empty ones. */
  function SplitOnSpace(s: string): (r: seq<string>)
    ensures forall i :: 0 <= i < |r| ==> ' ' !in r[i]
  {
    if ' ' !in s then [s] else DropTrailingEmpty(Pieces(s))
  }

  /** The fields written one after the other, a single space between two. */
  function JoinWithSpaces(fs: seq<string>): string {
    if fs == [] then ""
    else if |fs| == 1 then fs[0]
    else fs[0] + " " + JoinWithSpaces(fs[1..])
  }

  /** A word joined in front of other fields comes first, with one space after it. */
  lemma JoinCons(w: string, fs: seq<string>)
    requires fs != []
    ensures JoinWithSpaces([w] + fs) == w + (" " + JoinWithSpaces(fs))
  {
    assert ([w] + fs)[1..] == fs;
  }

  /** Splitting what JoinWithSpaces wrote gives back the fields. */
  lemma {:induction false} PiecesOfJoin(fs: seq<string>)
    requires |fs| > 0
    requires forall i :: 0 <= i < |fs| ==> ' ' !in fs[i]
    ensures Pieces(JoinWithSpaces(fs)) == fs
  {
    if |fs| > 1 {
      PiecesCons(fs[0], JoinWithSpaces(fs[1..]));
      PiecesOfJoin(fs[1..]);
      assert [fs[0]] + fs[1..] == fs;
    }
  }

  /** A piece without spaces, then a space: that piece comes first, then the pieces after the space. */
  lemma PiecesCons(w: string, rest: string)
    requires ' ' !in w
    ensures Pieces(w + " " + rest) == [w] + Pieces(rest)
  {
    var s := w + " " + rest;
    assert s[|w|] == ' ';
    assert s[..|w|] == w;
    FirstSpaceIs(s, |w|);
    assert s[|w| + 1..] == rest;
  }

  lemma FirstSpaceIs(s: string, k: nat)
    requires k < |s| && s[k] == ' ' && ' ' !in s[..k]
    ensures ' ' in s[0..] && FirstSpace(s, 0) == k
  {
    assert s[0..] == s;
    FirstSpaceFrom(s, 0, k);
  }

  lemma {:induction false} FirstSpaceFrom(s: string, i: nat, k: nat)
    requires i <= k < |s| && s[k] == ' ' && ' ' !in s[..k]
    ensures ' ' in s[i..] && FirstSpace(s, i) == k
    decreases k - i
  {
    assert s[i..][k - i] == ' ';
    if i < k {
      assert s[i] == s[..k][i];
      FirstSpaceFrom(s, i + 1, k);
    }
  }

  /** String.split(" ") recovers the fields JoinWithSpaces wrote when the last one is not empty. */
  lemma SplitOfJoin(fs: seq<string>)
    requires |fs| > 1
    requires forall i :: 0 <= i < |fs| ==> ' ' !in fs[i]
    requires fs[|fs| - 1] != ""
    ensures SplitOnSpace(JoinWithSpaces(fs)) == fs
  {
    PiecesOfJoin(fs);
    var s := JoinWithSpaces(fs);
    assert s == fs[0] + " " + JoinWithSpaces(fs[1..]);
    assert s[|fs[0]|] == ' ';
  }

  /** What remains of `s` once the spaces at its start are removed. */
  function DropLeadingSpaces(s: string): (r: string)
    ensures |r| <= |s| && r == s[|s| - |r|..]
    ensures forall k :: 0 <= k < |s| - |r| ==> s[k] == ' '
    ensures r == [] || r[0] != ' '
  {
    if s != [] && s[0] == ' ' then DropLeadingSpaces(s[1..]) else s
  }

  /** The loop that strips a string's leading spaces, one substring(1) at a time. */
  method StripLeadingSpaces(s: string) returns (r: string)
    ensures r == DropLeadingSpaces(s)
  {
    r := s;
    while |r| > 0 && r[0] == ' '
      invariant DropLeadingSpaces(r) == DropLeadingSpaces(s)
    {
      r := r[1..];
    }
  }

  /** A java.util.Scanner over a fixed text: `input` is what it has not read yet. */
  class Scanner {
    var input: string

    constructor (text: string)
      ensures input == text
    {
      input := text;
    }

    predicate HasNextToken()
      reads this
    {
      HasNext(input)
    }

    /** Scanner.next(): None stands for the NoSuchElementException thrown when no token is left. */
    method Next() returns (tok: Option<string>)
      modifies this
      ensures old(HasNext(input)) ==> tok == Some(NextToken(old(input)).0) && input == NextToken(old(input)).1
      ensures !old(HasNext(input)) ==> tok == None && input == old(input)
    {
      var t := input;
      while t != [] && IsWhitespace(t[0])
        invariant SkipWhitespace(t) == SkipWhitespace(input)
      {
        t := t[1..];
      }
      if t == [] {
        return None;
      }
      var n := 0;
      while n < |t| && !IsWhitespace(t[n])
        invariant n <= |t|
        invariant TokenLength(t) == n + TokenLength(t[n..])
      {
        assert t[n..][1..] == t[n + 1..];
        n := n + 1;
      }
      tok := Some(t[..n]);
      input := t[n..];
    }

    predicate HasNextDoubleToken(doubles: Codec<real>)
      reads this
    {
      HasNextDouble(input, doubles)
    }

    /**
     * Scanner.nextDouble(): None stands for the exception thrown when the next token is not a
     * double, which leaves that token unread.
     */
    method NextDouble(doubles: Codec<real>) returns (x: Option<real>)
      modifies this
      ensures old(HasNextDouble(input, doubles)) ==>
        x == doubles.parse(NextToken(old(input)).0) && input == NextToken(old(input)).1
      ensures !old(HasNextDouble(input, doubles)) ==> x == None && input == old(input)
    {
      if !HasNextDoubleToken(doubles) {
        return None;
      }
      var tok := Next();
      x := doubles.parse(tok.value);
    }

    /** Scanner.nextLine(): None stands for the NoSuchElementException thrown at the end of the input. */
    method NextLine() returns (line: Option<string>)
      modifies this
      ensures old(LineFrom(input)).Some? ==> line == Some(old(LineFrom(input)).value.0) && input == old(LineFrom(input)).value.1
      ensures old(LineFrom(input)).None? ==> line == None && input == old(input)
    {
      if input == [] {
        return None;
      }
      var n := 0;
      while n < |input| && input[n] != '\n'
        invariant n <= |input|
        invariant forall k :: 0 <= k < n ==> input[k] != '\n'
      {
        n := n + 1;
      }
      LineFromAt(input, n);
      line := Some(input[..n]);
      input := if n < |input| then input[n + 1..] else [];
    }
  }
}
