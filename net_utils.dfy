/**
 * NetUtils.writeLine: every protocol line goes out terminated by exactly one '\n' added when
 * missing. The shared NetUtils sends the UTF-8 encoding of that text; the server's copy of
 * the class sends the same text in the platform charset.
 */
module NetUtils {
  import opened Wrappers
  import opened Lists

  newtype byte = b: int | 0 <= b < 256

  /** The text writeLine sends for `line`. */
  function Terminated(line: string): string {
    if |line| > 0 && line[|line| - 1] == '\n' then line else line + "\n"
  }

  /** What is sent ends with '\n', starts with the line itself and adds at most that one character. */
  lemma TerminatedShape(line: string)
    ensures var r := Terminated(line);
      |r| > 0 && r[|r| - 1] == '\n' && |line| <= |r| <= |line| + 1 && r[..|line|] == line
  {
  }

  /** A line that already ends with '\n' goes out unchanged; so terminating twice is terminating once. */
  lemma TerminatedIdempotent(line: string)
    ensures |line| > 0 && line[|line| - 1] == '\n' ==> Terminated(line) == line
    ensures Terminated(Terminated(line)) == Terminated(line)
  {
  }

  /** A connection as the code writing to it sees it: the text sent so far, and whether it is open. */
  class Channel {
    var sent: string
    var open: bool

    constructor ()
      ensures sent == [] && open
    {
      sent := [];
      open := true;
    }

    /** writeLine: the line goes out with its terminator. */
    method WriteLine(line: string)
      modifies this`sent
      ensures sent == old(sent) + Terminated(line)
    {
      sent := sent + Terminated(line);
    }

    /** SocketChannel.write of a whole buffer: the text goes out as it is. */
    method Write(text: string)
      modifies this`sent
      ensures sent == old(sent) + text
    {
      sent := sent + text;
    }

    /** close: nothing more is sent; what was sent stays sent. */
    method Close()
      modifies this`open
      ensures !open
    {
      open := false;
    }
  }

  /** The text a run of writeLine calls puts on the channel, one line after the other. */
  function Transcript(lines: seq<string>): string {
    if lines == [] then "" else Terminated(lines[0]) + Transcript(lines[1..])
  }

  /** Writing two runs of lines one after the other sends the two texts one after the other. */
  lemma {:induction false} TranscriptAppend(a: seq<string>, b: seq<string>)
    ensures Transcript(a + b) == Transcript(a) + Transcript(b)
    decreases |a|
  {
    if a == [] {
      assert a + b == b;
    } else {
      assert (a + b)[0] == a[0];
      assert (a + b)[1..] == a[1..] + b;
      TranscriptAppend(a[1..], b);
      Associative(Terminated(a[0]), Transcript(a[1..]), Transcript(b));
    }
  }

  /** One more line adds its terminated text at the end. */
  lemma TranscriptSnoc(lines: seq<string>, line: string)
    ensures Transcript(lines + [line]) == Transcript(lines) + Terminated(line)
  {
    TranscriptAppend(lines, [line]);
    assert Transcript([line]) == Terminated(line) + Transcript([]);
  }

  /** A line without a newline of its own goes out with exactly one added. */
  lemma TerminatedPlain(line: string)
    requires '\n' !in line
    ensures Terminated(line) == line + "\n"
  {
    if |line| > 0 {
      assert line[|line| - 1] in line;
    }
  }

  /** The UTF-8 bytes of one character. */
  function EncodeChar(c: char): (b: seq<byte>)
    ensures 1 <= |b| <= 4
  {
    var v := c as int;
    if v < 0x80 then [v as byte]
    else if v < 0x800 then [(0xC0 + v / 64) as byte, (0x80 + v % 64) as byte]
    else if v < 0x10000 then [(0xE0 + v / 4096) as byte, (0x80 + (v / 64) % 64) as byte, (0x80 + v % 64) as byte]
    else [(0xF0 + v / 262144) as byte, (0x80 + (v / 4096) % 64) as byte, (0x80 + (v / 64) % 64) as byte, (0x80 + v % 64) as byte]
  }

  /** String.getBytes(UTF-8). */
  function Utf8(s: string): seq<byte> {
    if s == [] then [] else EncodeChar(s[0]) + Utf8(s[1..])
  }

  /** The bytes the shared NetUtils.writeLine puts on the channel. */
  function WrittenBytes(line: string): seq<byte> {
    Utf8(Terminated(line))
  }

  /** The code point a UTF-8 sequence of `n` bytes starting at b[0] carries, when it is a Unicode scalar value. */
  function ScalarAt(b: seq<byte>, n: nat): (r: Option<char>)
    requires 1 <= n <= 4 && n <= |b|
  {
    var v :=
      if n == 1 then b[0] as int
      else if n == 2 then (b[0] as int - 0xC0) * 64 + (b[1] as int - 0x80)
      else if n == 3 then ((b[0] as int - 0xE0) * 64 + (b[1] as int - 0x80)) * 64 + (b[2] as int - 0x80)
      else (((b[0] as int - 0xF0) * 64 + (b[1] as int - 0x80)) * 64 + (b[2] as int - 0x80)) * 64 + (b[3] as int - 0x80);
    if (0 <= v < 0xD800 || 0xE000 <= v < 0x11_0000) then Some(v as char) else None
  }

  /** The number of bytes announced by a leading byte, 0 for a byte that cannot lead. */
  function SequenceLength(lead: byte): nat {
    if lead < 0x80 then 1
    else if 0xC0 <= lead < 0xE0 then 2
    else if 0xE0 <= lead < 0xF0 then 3
    else if 0xF0 <= lead < 0xF8 then 4
    else 0
  }

  predicate IsContinuation(b: byte) { 0x80 <= b < 0xC0 }

  /** UTF-8 decoding, None for a malformed sequence. */
  function DecodeUtf8(b: seq<byte>): Option<string>
    decreases |b|
  {
    if b == [] then Some([])
    else
      var n := SequenceLength(b[0]);
      if n == 0 || n > |b| || exists k :: 1 <= k < n && !IsContinuation(b[k]) then None
      else match ScalarAt(b, n)
        case None => None
        case Some(c) =>
          match DecodeUtf8(b[n..])
          case None => None
          case Some(rest) => Some([c] + rest)
  }

  lemma EncodeCharDecodes(c: char, rest: seq<byte>)
    ensures var e := EncodeChar(c) + rest;
            SequenceLength(e[0]) == |EncodeChar(c)|
            && (forall k :: 1 <= k < |EncodeChar(c)| ==> IsContinuation(e[k]))
            && ScalarAt(e, |EncodeChar(c)|) == Some(c)
  {
    var v := c as int;
    if v < 0x80 {
    } else if v < 0x800 {
      TwoBytesDecode(c, rest);
    } else if v < 0x10000 {
      ThreeBytesDecode(c, rest);
    } else {
      FourBytesDecode(c, rest);
    }
  }

  lemma TwoBytesDecode(c: char, rest: seq<byte>)
    requires 0x80 <= c as int < 0x800
    ensures var e := EncodeChar(c) + rest;
            SequenceLength(e[0]) == |EncodeChar(c)|
            && (forall k :: 1 <= k < |EncodeChar(c)| ==> IsContinuation(e[k]))
            && ScalarAt(e, |EncodeChar(c)|) == Some(c)
  {
    var v := c as int;
    assert v == (v / 64) * 64 + v % 64;
  }

  lemma ThreeBytesDecode(c: char, rest: seq<byte>)
    requires 0x800 <= c as int < 0x10000
    ensures var e := EncodeChar(c) + rest;
            SequenceLength(e[0]) == |EncodeChar(c)|
            && (forall k :: 1 <= k < |EncodeChar(c)| ==> IsContinuation(e[k]))
            && ScalarAt(e, |EncodeChar(c)|) == Some(c)
  {
    var v := c as int;
    SixBitDigits(v);
    SixBitDigits(v / 64);
    assert (v / 64) / 64 == v / 4096;
  }

  lemma FourBytesDecode(c: char, rest: seq<byte>)
    requires 0x10000 <= c as int
    ensures var e := EncodeChar(c) + rest;
            SequenceLength(e[0]) == |EncodeChar(c)|
            && (forall k :: 1 <= k < |EncodeChar(c)| ==> IsContinuation(e[k]))
            && ScalarAt(e, |EncodeChar(c)|) == Some(c)
  {
    var v := c as int;
    SixBitDigits(v);
    SixBitDigits(v / 64);
    SixBitDigits(v / 4096);
    assert (v / 64) / 64 == v / 4096;
    assert (v / 4096) / 64 == v / 262144;
  }

  /** A number is its last six bits plus 64 times the rest. */
  lemma SixBitDigits(v: int)
    requires v >= 0
    ensures v == (v / 64) * 64 + v % 64 && 0 <= v % 64 < 64
  {
  }

  /** Decoding the UTF-8 encoding of a text gives the text back. */
  lemma {:induction false} Utf8RoundTrip(s: string)
    ensures DecodeUtf8(Utf8(s)) == Some(s)
  {
    if s != [] {
      var e := Utf8(s);
      var n := |EncodeChar(s[0])|;
      EncodeCharDecodes(s[0], Utf8(s[1..]));
      assert e[n..] == Utf8(s[1..]);
      Utf8RoundTrip(s[1..]);
      assert [s[0]] + s[1..] == s;
    }
  }

  /** A line of ASCII text is sent as one byte per character, its code. */
  lemma {:induction false} Utf8OfAscii(s: string)
    requires forall i :: 0 <= i < |s| ==> s[i] as int < 0x80
    ensures |Utf8(s)| == |s|
    ensures forall i :: 0 <= i < |s| ==> Utf8(s)[i] as int == s[i] as int
  {
    if s != [] {
      Utf8OfAscii(s[1..]);
    }
  }

  lemma {:induction false} Utf8Append(s: string, t: string)
    ensures Utf8(s + t) == Utf8(s) + Utf8(t)
  {
    if s != [] {
      Utf8Append(s[1..], t);
      assert (s + t)[1..] == s[1..] + t;
    } else {
      assert s + t == t;
    }
  }

  /** Whatever the line, the last byte written is the newline 0x0A. */
  lemma WrittenBytesEndInNewline(line: string)
    ensures var b := WrittenBytes(line); |b| > 0 && b[|b| - 1] == 0x0A
  {
    var t := Terminated(line);
    TerminatedShape(line);
    assert t == t[..|t| - 1] + ['\n'];
    Utf8Append(t[..|t| - 1], ['\n']);
  }
}
