/**
 * The receiving side of main.py's serial thread (`serial_receive_loop`):
 * bytes arrive one at a time, each is decoded as UTF-8 on its own with
 * errors ignored, and the characters are collected into a text buffer that
 * a line feed completes. A completed line is shown only when it holds
 * something other than whitespace; carriage returns are dropped.
 *
 * `Step` is one byte of the loop, `Assemble` the whole stream and
 * `ReceiveLoop` the loop itself. `Split` and `NonBlank` are an independent
 * description of the result: the text is cut at every line feed, the blank
 * pieces are dropped and the unfinished tail stays in the buffer.
 */
module LineAssembler {
  import Codec = SbusCodec

  const LF: char := '\n'
  const CR: char := '\r'

  /**
   * `bytes([b]).decode('utf-8', errors='ignore')`: a byte below 0x80 is the
   * ASCII character with that code; any other byte on its own is an
   * incomplete or invalid sequence and decodes to nothing.
   */
  function DecodeByte(b: Codec.Byte): (s: string)
    ensures b < 0x80 ==> s == [b as char]
    ensures b >= 0x80 ==> s == []
  {
    if b < 0x80 then [b as char] else []
  }

  /** Python's `str.isspace` on one character. */
  predicate IsSpace(c: char)
  {
    var n := c as int;
    9 <= n <= 13 || 28 <= n <= 32 || n == 0x85 || n == 0xA0 || n == 0x1680
    || 0x2000 <= n <= 0x200A || n == 0x2028 || n == 0x2029 || n == 0x202F
    || n == 0x205F || n == 0x3000
  }

  /** The string has a character that is not whitespace. */
  predicate HasVisible(s: string)
  {
    exists i :: 0 <= i < |s| && !IsSpace(s[i])
  }

  /** Leading whitespace removed. */
  function StripLeading(s: string): (r: string)
    ensures |r| <= |s| && r == s[|s| - |r|..]
    ensures r != [] ==> !IsSpace(r[0])
    ensures forall i :: 0 <= i < |s| - |r| ==> IsSpace(s[i])
  {
    if s != [] && IsSpace(s[0]) then StripLeading(s[1..]) else s
  }

  /** Trailing whitespace removed. */
  function StripTrailing(s: string): (r: string)
    ensures |r| <= |s| && r == s[..|r|]
    ensures r != [] ==> !IsSpace(r[|r| - 1])
    ensures forall i :: |r| <= i < |s| ==> IsSpace(s[i])
  {
    if s != [] && IsSpace(s[|s| - 1]) then StripTrailing(s[..|s| - 1]) else s
  }

  /** `str.strip()` with no argument: what is left neither starts nor ends with whitespace. */
  function Strip(s: string): (r: string)
    ensures |r| <= |s|
    ensures r != [] ==> !IsSpace(r[0]) && !IsSpace(r[|r| - 1])
  {
    StripTrailing(StripLeading(s))
  }

  /** `text_buffer.strip()` is truthy exactly when the buffer has a visible character. */
  lemma StripEmptyIffBlank(s: string)
    ensures Strip(s) != [] <==> HasVisible(s)
  {
    var l := StripLeading(s);
    var r := StripTrailing(l);
    if r != [] {
      assert !IsSpace(s[|s| - |l|]);
    }
    if HasVisible(s) {
      var i :| 0 <= i < |s| && !IsSpace(s[i]);
      assert l[i - (|s| - |l|)] == s[i];
    }
  }

  /** The text buffer after a byte, and the line it completes, if any. */
  datatype Received = Received(buffer: string, line: Codec.Option<string>)

  /**
   * One byte of `serial_receive_loop`: a line feed shows the buffer when it
   * is not blank and empties it in either case; a carriage return is
   * ignored; anything else is appended, so a byte that decodes to nothing
   * changes nothing.
   */
  function Step(buffer: string, b: Codec.Byte): (r: Received)
    ensures r.line.Some? ==> b == 10 && r.line.value == buffer && r.buffer == []
    ensures r.line.None? ==> r.buffer == [] || (|buffer| <= |r.buffer| && r.buffer[..|buffer|] == buffer)
    ensures |r.buffer| <= |buffer| + 1
  {
    var ch := DecodeByte(b);
    if ch == [LF] then
      Received([], if Strip(buffer) != [] then Codec.Some(buffer) else Codec.None)
    else if ch == [CR] then
      Received(buffer, Codec.None)
    else
      Received(buffer + ch, Codec.None)
  }

  /** The number of line feeds in a stream of bytes. */
  function LineFeeds(received: seq<Codec.Byte>): nat
    decreases |received|
  {
    if received == [] then 0
    else LineFeeds(received[..|received| - 1]) + (if received[|received| - 1] == 10 then 1 else 0)
  }

  /**
   * The lines shown and the buffer left after a stream of bytes, from an
   * empty buffer: at most one line per line feed received, and never more
   * buffered characters than bytes.
   */
  function Assemble(received: seq<Codec.Byte>): (r: (seq<string>, string))
    ensures |r.0| <= LineFeeds(received)
    ensures |r.1| <= |received|
    decreases |received|
  {
    if received == [] then ([], [])
    else
      var prev := Assemble(received[..|received| - 1]);
      var next := Step(prev.1, received[|received| - 1]);
      (if next.line.Some? then prev.0 + [next.line.value] else prev.0, next.buffer)
  }

  /**
   * The loop of `serial_receive_loop` over the bytes the port delivers,
   * starting from `text_buffer = ""`: the lines it inserts into the monitor
   * (each followed there by a line feed) and the buffer it ends with.
   */
  method ReceiveLoop(received: seq<Codec.Byte>) returns (lines: seq<string>, textBuffer: string)
    ensures (lines, textBuffer) == Assemble(received)
  {
    lines, textBuffer := [], "";
    var i := 0;
    while i < |received|
      invariant 0 <= i <= |received|
      invariant (lines, textBuffer) == Assemble(received[..i])
    {
      ghost var next := Step(textBuffer, received[i]);
      assert received[..i + 1][..i] == received[..i];
      var ch := DecodeByte(received[i]);
      if ch == "\n" {
        if Strip(textBuffer) != "" {
          lines := lines + [textBuffer];
        }
        textBuffer := "";
      } else if ch == "\r" {
      } else {
        textBuffer := textBuffer + ch;
      }
      assert textBuffer == next.buffer;
      i := i + 1;
    }
    assert received[..i] == received;
  }

  // ---------------------------------------------------------------------
  // One byte
  // ---------------------------------------------------------------------

  /** A line feed empties the buffer, and shows it exactly when it has a visible character. */
  lemma LineFeedCompletes(buffer: string)
    ensures Step(buffer, 10).buffer == []
    ensures Step(buffer, 10).line.Some? <==> HasVisible(buffer)
    ensures Step(buffer, 10).line.Some? ==> Step(buffer, 10).line.value == buffer
  {
    StripEmptyIffBlank(buffer);
  }

  /** A carriage return and a byte of 0x80 or more leave everything as it was. */
  lemma IgnoredBytes(buffer: string, b: Codec.Byte)
    requires b == 13 || b >= 0x80
    ensures Step(buffer, b) == Received(buffer, Codec.None)
  {
  }

  /** Any other byte is appended as its ASCII character. */
  lemma OtherBytesAppend(buffer: string, b: Codec.Byte)
    requires b < 0x80 && b != 10 && b != 13
    ensures Step(buffer, b) == Received(buffer + [b as char], Codec.None)
  {
  }

  predicate NoBreaks(s: string)
  {
    LF !in s && CR !in s
  }

  /** A buffer without line breaks keeps none, and a line it completes has none. */
  lemma StepKeepsNoBreaks(buffer: string, b: Codec.Byte)
    requires NoBreaks(buffer)
    ensures NoBreaks(Step(buffer, b).buffer)
    ensures Step(buffer, b).line.Some? ==> NoBreaks(Step(buffer, b).line.value)
  {
  }

  /** A line as the monitor shows it: no line break inside, and something visible. */
  predicate CleanLine(line: string)
  {
    NoBreaks(line) && HasVisible(line)
  }

  /**
   * Over a whole stream: no line shown and no buffer left contains a line
   * feed or a carriage return, and every line shown has a visible character.
   */
  lemma {:induction false} AssembledLinesAreClean(received: seq<Codec.Byte>)
    ensures forall i :: 0 <= i < |Assemble(received).0| ==> CleanLine(Assemble(received).0[i])
    ensures NoBreaks(Assemble(received).1)
    decreases |received|
  {
    if received != [] {
      var prefix, b := received[..|received| - 1], received[|received| - 1];
      AssembledLinesAreClean(prefix);
      var prev := Assemble(prefix);
      var next := Step(prev.1, b);
      StepKeepsNoBreaks(prev.1, b);
      var lines := Assemble(received).0;
      if next.line.Some? {
        StripEmptyIffBlank(prev.1);
        assert lines == prev.0 + [next.line.value];
        forall i | 0 <= i < |lines|
          ensures CleanLine(lines[i])
        {
          if i < |prev.0| {
            assert lines[i] == prev.0[i];
          }
        }
      } else {
        assert lines == prev.0;
      }
    }
  }

  // ---------------------------------------------------------------------
  // The same result, described by cutting the text at line feeds
  // ---------------------------------------------------------------------

  /** The characters of the stream that reach the buffer or end a line: decoded, carriage returns dropped. */
  function Text(received: seq<Codec.Byte>): string
    decreases |received|
  {
    if received == [] then []
    else
      var ch := DecodeByte(received[|received| - 1]);
      Text(received[..|received| - 1]) + (if ch == [CR] then [] else ch)
  }

  /**
   * The text cut at every line feed, read from the front: the pieces each
   * line feed ends, and the piece after the last one.
   */
  function Split(t: string): (r: (seq<string>, string))
    decreases |t|
  {
    if t == [] then ([], [])
    else
      var (pieces, rest) := Split(t[1..]);
      if t[0] == LF then ([[]] + pieces, rest)
      else if pieces == [] then ([], [t[0]] + rest)
      else ([[t[0]] + pieces[0]] + pieces[1..], rest)
  }

  /** The pieces with a visible character, in order. */
  function NonBlank(pieces: seq<string>): (r: seq<string>)
    ensures forall i :: 0 <= i < |r| ==> HasVisible(r[i])
    decreases |pieces|
  {
    if pieces == [] then []
    else NonBlank(pieces[..|pieces| - 1]) + (if HasVisible(pieces[|pieces| - 1]) then [pieces[|pieces| - 1]] else [])
  }

  /** A character other than a line feed extends the last piece. */
  lemma {:induction false} SplitAppendChar(t: string, c: char)
    requires c != LF
    ensures Split(t + [c]).0 == Split(t).0 && Split(t + [c]).1 == Split(t).1 + [c]
    decreases |t|
  {
    if t != [] {
      assert (t + [c])[1..] == t[1..] + [c];
      SplitAppendChar(t[1..], c);
    } else {
      assert t + [c] == [c] && [c][1..] == [];
      assert [c] + [] == [c];
    }
  }

  /** A line feed ends the last piece. */
  lemma {:induction false} SplitAppendLineFeed(t: string)
    ensures Split(t + [LF]).0 == Split(t).0 + [Split(t).1] && Split(t + [LF]).1 == []
    decreases |t|
  {
    if t != [] {
      assert (t + [LF])[1..] == t[1..] + [LF];
      SplitAppendLineFeed(t[1..]);
    } else {
      assert t + [LF] == [LF] && [LF][1..] == [];
    }
  }

  /**
   * The loop shows exactly the non-blank pieces of the text that a line
   * feed ends, in order, and keeps the piece after the last line feed.
   */
  lemma {:induction false} AssembleIsSplit(received: seq<Codec.Byte>)
    ensures Assemble(received).0 == NonBlank(Split(Text(received)).0)
    ensures Assemble(received).1 == Split(Text(received)).1
    decreases |received|
  {
    if received != [] {
      var prefix, b := received[..|received| - 1], received[|received| - 1];
      AssembleIsSplit(prefix);
      var prev, t := Assemble(prefix), Text(prefix);
      var next := Step(prev.1, b);
      var ch := DecodeByte(b);
      if ch == [LF] {
        SplitAppendLineFeed(t);
        StripEmptyIffBlank(prev.1);
        assert Text(received) == t + [LF];
        var pieces := Split(t).0 + [Split(t).1];
        assert pieces[..|pieces| - 1] == Split(t).0;
      } else if ch == [CR] || ch == [] {
        assert next == Received(prev.1, Codec.None);
        assert Text(received) == t;
      } else {
        assert Text(received) == t + [ch[0]];
        SplitAppendChar(t, ch[0]);
      }
    }
  }
}
